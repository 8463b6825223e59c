/**
 * The edit dialog: it is filled from a task whenever it opens, and on submit
 * it checks the title and dispatches `updateTask` with the edited copy.
 */
module EditTaskDialog {
  import opened Types
  import opened Text
  import opened TaskFields
  import opened BoardSlice
  import opened CreateTaskDialog

  /** What the form shows for a task: absent values as empty text, tags joined with `", "`. */
  function PrefillOf(task: Task): (r: FormInput)
    ensures r.title == task.title && r.priority == task.priority
    ensures r.description == OrEmpty(task.description) && r.dueDate == OrEmpty(task.dueDate)
    ensures r.tags == Join(task.tags, ", ")
    ensures FormShaped(task) ==> !AllWhitespace(r.title)
    ensures (forall k :: 0 <= k < |task.tags| ==> WellFormedTag(task.tags[k])) ==> ParseTags(r.tags) == task.tags
  {
    assert FormShaped(task) ==> !IsWhitespace(task.title[0]);
    assert (forall k :: 0 <= k < |task.tags| ==> WellFormedTag(task.tags[k])) ==>
      ParseTags(Join(task.tags, ", ")) == task.tags by {
      if forall k :: 0 <= k < |task.tags| ==> WellFormedTag(task.tags[k]) {
        TagsRoundTrip(task.tags);
      }
    }
    FormInput(task.title, OrEmpty(task.description), task.priority, OrEmpty(task.dueDate), Join(task.tags, ", "))
  }

  /**
   * The validation and the spread of `handleSubmit`: the edited fields come
   * from the form, normalised as on creation; id, creation time and status
   * are the task's own.
   */
  function EditedTask(task: Task, form: FormInput): (r: Result<Task, string>)
    ensures r.Failure? <==> AllWhitespace(form.title)
    ensures r.Failure? ==> r.error == TitleRequired
    ensures r.Success? ==>
      && FormShaped(r.value)
      && r.value.id == task.id && r.value.createdAt == task.createdAt && r.value.status == task.status
      && r.value.title == Trim(form.title)
      && r.value.priority == form.priority
      && (r.value.description.None? <==> AllWhitespace(form.description))
      && (r.value.description.Some? ==> r.value.description.value == Trim(form.description))
      && (r.value.dueDate.None? <==> form.dueDate == [])
      && (r.value.dueDate.Some? ==> r.value.dueDate.value == form.dueDate)
      && r.value.tags == ParseTags(form.tags)
  {
    var title := Trim(form.title);
    if title == [] then Failure(TitleRequired)
    else
      Success(task.(
        title := title,
        description := Optional(Trim(form.description)),
        priority := form.priority,
        dueDate := Optional(form.dueDate),
        tags := ParseTags(form.tags)))
  }

  /**
   * Submitting the form just as it was prefilled saves the task unchanged,
   * for any task in the shape the dialogs produce: in particular each tag is
   * non-empty, trimmed and comma-free, so `join(', ')` then `split(',')` and
   * `trim` give the tags back.
   */
  lemma PrefillRoundTrip(task: Task)
    requires FormShaped(task)
    ensures EditedTask(task, PrefillOf(task)) == Success(task)
  {
    var form := PrefillOf(task);
    TrimOfTrimmed(task.title);
    TagsRoundTrip(task.tags);
    if task.description.Some? {
      TrimOfTrimmed(task.description.value);
    } else {
      assert Trim(form.description) == [] by {
        assert AllWhitespace(form.description);
      }
    }
  }

  /** A task saved by the create dialog passes unchanged through an untouched edit. */
  lemma CreatedTaskSurvivesEdit(form: FormInput, id: string, createdAt: string)
    requires NewTask(form, id, createdAt).Success?
    ensures var t := NewTask(form, id, createdAt).value;
      EditedTask(t, PrefillOf(t)) == Success(t)
  {
    PrefillRoundTrip(NewTask(form, id, createdAt).value);
  }

  /** The state of an edit dialog: its props (`task`, `open`), its inputs and its error text. */
  class EditForm {
    var task: Task
    var open: bool
    var title: string
    var description: string
    var priority: Priority
    var dueDate: string
    var tags: string
    var error: string

    /** The form's inputs as one value. */
    function Input(): FormInput
      reads this
    {
      FormInput(title, description, priority, dueDate, tags)
    }

    /** The initial `useState` values, taken from the task; no error. */
    constructor (task: Task, open: bool)
      ensures this.task == task && this.open == open
      ensures Input() == PrefillOf(task) && error == []
    {
      this.task := task;
      this.open := open;
      var form := PrefillOf(task);
      title, description, priority, dueDate, tags := form.title, form.description, form.priority, form.dueDate, form.tags;
      error := "";
    }

    /** The `onChange` handlers of the inputs. */
    method SetInput(form: FormInput)
      modifies this`title, this`description, this`priority, this`dueDate, this`tags
      ensures Input() == form
    {
      title, description, priority, dueDate, tags := form.title, form.description, form.priority, form.dueDate, form.tags;
    }

    /**
     * New props from the parent, then the `[open, task]` effect: when either
     * changed and the dialog is open, every input is reloaded from the task
     * and the error is cleared; otherwise the inputs are left as typed.
     */
    method SetProps(newTask: Task, newOpen: bool)
      modifies this
      ensures task == newTask && open == newOpen
      ensures (newTask != old(task) || newOpen != old(open)) && newOpen ==>
        Input() == PrefillOf(newTask) && error == []
      ensures !((newTask != old(task) || newOpen != old(open)) && newOpen) ==>
        Input() == old(Input()) && error == old(error)
    {
      var changed := newTask != task || newOpen != open;
      task, open := newTask, newOpen;
      if changed && open {
        var form := PrefillOf(task);
        title, description, priority, dueDate, tags := form.title, form.description, form.priority, form.dueDate, form.tags;
        error := "";
      }
    }

    /**
     * `handleSubmit`. A blank title sets the error and dispatches nothing.
     * Otherwise one `updateTask` with the edited copy goes to the board and
     * `onOpenChange(false)` closes the dialog.
     */
    method HandleSubmit(board: Board, now: string) returns (dispatched: Option<Task>)
      modifies this, board
      ensures task == old(task) && Input() == old(Input())
      ensures AllWhitespace(old(title)) ==>
        && dispatched == None
        && error == TitleRequired && open == old(open)
        && unchanged(board)
      ensures !AllWhitespace(old(title)) ==>
        && dispatched.Some?
        && EditedTask(task, old(Input())) == Success(dispatched.value)
        && error == [] && !open
        && board.filters == old(board.filters)
        && var k := FindIndex(old(board.tasks), task.id);
          if k == -1 then
            board.tasks == old(board.tasks) && board.activityLog == old(board.activityLog) && board.writes == old(board.writes)
          else
            && board.tasks == old(board.tasks)[k := dispatched.value]
            && board.activityLog == Record(old(board.activityLog), LogEntry(EditedMessage(dispatched.value.title), now))
            && board.writes == old(board.writes) + Persisted(board.tasks, board.activityLog)
    {
      error := "";
      var result := EditedTask(task, Input());
      if result.Failure? {
        error := result.error;
        return None;
      }
      board.UpdateTask(result.value, now);
      dispatched := Some(result.value);
      open := false;
    }
  }
}
