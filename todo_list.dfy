/**
 * The `TodoList` component's state and its event handlers. Each React state
 * variable is a field; each handler assigns through its setters and so
 * becomes a method that modifies exactly the fields it sets. The new list
 * is always one of the transforms of module `Tasks` applied to the old one.
 */
module TodoApp {
  import opened Wrappers
  import opened Text
  import opened Tasks
  import Seqs

  /** What the file reader hands to `importTasks`: no file chosen, a document `JSON.parse` rejects, or a parsed list. */
  datatype ImportRead = NoFile | Malformed | Parsed(imported: seq<Task>)

  class TodoList {
    /** The text input buffer. */
    var task: string
    var tasks: seq<Task>
    /** "All", "Completed" or "Pending" from the buttons; any string in general. */
    var filter: string
    /** "light" or "dark" from the toggle; whatever storage held after a reload. */
    var theme: string
    /** The edit cursor: `null` or the id of the task being edited. */
    var editingId: Option<int>
    /** The scratch copy of the text being edited. */
    var editedTask: string

    /** The initial state of a fresh mount. */
    constructor ()
      ensures task == "" && tasks == [] && filter == "All" && theme == "light"
      ensures editingId == None && editedTask == ""
    {
      task := "";
      tasks := [];
      filter := "All";
      theme := "light";
      editingId := None;
      editedTask := "";
    }

    /** The tasks shown under the current filter: those of the list the filter matches, in list order. */
    function FilteredTasks(): (r: seq<Task>)
      reads this
      ensures Seqs.IsSubsequence(r, tasks)
      ensures forall t :: t in r ==> Matches(filter)(t)
      ensures forall i :: 0 <= i < |tasks| && Matches(filter)(tasks[i]) ==> tasks[i] in r
    {
      VisibleIsSubsequence(tasks, filter);
      Visible(tasks, filter)
    }

    method ToggleTheme()
      modifies this`theme
      ensures theme == NextTheme(old(theme))
    {
      theme := NextTheme(theme);
    }

    /** `onChange` of the text input. */
    method SetTask(value: string)
      modifies this`task
      ensures task == value
    {
      task := value;
    }

    /**
     * Rejects a blank input without touching anything; otherwise appends the
     * input, untrimmed and not completed, with id `now`, and clears the input.
     */
    method AddTask(now: int)
      modifies this`tasks, this`task
      ensures IsBlank(old(task)) ==> tasks == old(tasks) && task == old(task)
      ensures !IsBlank(old(task)) ==> tasks == Appended(old(tasks), now, old(task)) && task == ""
    {
      if Trim(task) == "" {
        return;
      }
      tasks := Appended(tasks, now, task);
      task := "";
    }

    method ToggleComplete(id: int)
      modifies this`tasks
      ensures tasks == Toggled(old(tasks), id)
    {
      tasks := Toggled(tasks, id);
    }

    method DeleteTask(id: int)
      modifies this`tasks
      ensures tasks == Without(old(tasks), id)
    {
      tasks := Without(tasks, id);
    }

    /** Moves the edit cursor, discarding any unsaved scratch text; the list is untouched. */
    method StartEditing(id: int, text: string)
      modifies this`editingId, this`editedTask
      ensures editingId == Some(id) && editedTask == text
    {
      editingId := Some(id);
      editedTask := text;
    }

    /** `onChange` of the inline edit input. */
    method SetEditedTask(value: string)
      modifies this`editedTask
      ensures editedTask == value
    {
      editedTask := value;
    }

    /** Writes the scratch text, verbatim, into the tasks under the cursor, then clears the cursor. */
    method SaveEditedTask()
      modifies this`tasks, this`editingId, this`editedTask
      ensures tasks == Renamed(old(tasks), old(editingId), old(editedTask))
      ensures editingId == None && editedTask == ""
    {
      tasks := Renamed(tasks, editingId, editedTask);
      editingId := None;
      editedTask := "";
    }

    /** `onClick` of the three filter buttons. */
    method SetFilter(value: string)
      modifies this`filter
      ensures filter == value
    {
      filter := value;
    }

    /** Replaces the list with a parsed document; with no file or a malformed one the list stays, and a malformed one raises the alert. */
    method ImportTasks(read: ImportRead) returns (alerted: bool)
      modifies this`tasks
      ensures alerted <==> read.Malformed?
      ensures tasks == if read.Parsed? then read.imported else old(tasks)
    {
      alerted := false;
      match read {
        case NoFile =>
        case Malformed =>
          alerted := true;
        case Parsed(imported) =>
          tasks := imported;
      }
    }
  }

  /** Adding "buy milk", completing it, and looking at it through the "Pending" and "Completed" filters. */
  method BuyMilk(now: int)
  {
    var app := new TodoList();
    app.SetTask("buy milk");
    assert !IsBlank(app.task) by { assert !IsWhitespace(app.task[0]); }
    app.AddTask(now);
    assert app.tasks == [Task(now, "buy milk", false)];
    app.ToggleComplete(now);
    assert app.tasks == [Task(now, "buy milk", true)];
    app.SetFilter("Pending");
    assert app.FilteredTasks() == [];
    app.SetFilter("Completed");
    assert app.FilteredTasks() == app.tasks;
  }
}
