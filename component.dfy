/** The TaskManager component's state and its event handlers. Each handler is
    one atomic transition: the fields it assigns are named in its `modifies`
    clause, and every other field keeps its value. */
module Component {
  import Text
  import Lists
  import opened Todos

  class TaskManager {
    var todos: seq<Todo>
    /** The add form's text field. */
    var newTodoText: string
    var filter: Filter
    /** The identifier of the task open in the edit form, if any. */
    var editingTodo: Option<string>
    /** The edit form's text field. */
    var editText: string
    var isFilterMenuOpen: bool
    /** The date field, shared by the add form and the edit form. */
    var dueDateInput: string
    /** The priority selector, shared by the add form and the edit form. */
    var priority: Priority

    /** Mounting: `saved` is the list read back from storage, `None` when
        storage holds nothing (or an empty string); then the list starts with
        the seed task. The form starts empty, medium, unfiltered. */
    constructor (saved: Option<seq<Todo>>)
      ensures saved.Some? ==> todos == saved.value
      ensures saved.None? ==> todos == [Seed]
      ensures newTodoText == "" && filter == All && editingTodo == None && editText == ""
      ensures !isFilterMenuOpen && dueDateInput == "" && priority == Medium
    {
      todos := if saved.Some? then saved.value else [Seed];
      newTodoText := "";
      filter := All;
      editingTodo := None;
      editText := "";
      isFilterMenuOpen := false;
      dueDateInput := "";
      priority := Medium;
    }

    /** Typing in the add form's text field. */
    method ChangeNewTodoText(s: string)
      modifies this`newTodoText
      ensures newTodoText == s
    {
      newTodoText := s;
    }

    /** Picking a date (in either form). */
    method ChangeDueDateInput(s: string)
      modifies this`dueDateInput
      ensures dueDateInput == s
    {
      dueDateInput := s;
    }

    /** Picking a priority (in either form). */
    method ChangePriority(p: Priority)
      modifies this`priority
      ensures priority == p
    {
      priority := p;
    }

    /** Typing in the edit form's text field. */
    method ChangeEditText(s: string)
      modifies this`editText
      ensures editText == s
    {
      editText := s;
    }

    /** addTodo. `id` stands for `Date.now().toString()` and `now` for
        `new Date().toISOString()`. Text that trims to nothing is ignored and
        nothing changes; otherwise exactly one task is appended, with the text
        as typed, and the text field, the date field and the priority reset. */
    method AddTodo(id: string, now: string)
      modifies this`todos, this`newTodoText, this`dueDateInput, this`priority
      ensures Text.IsBlank(old(newTodoText)) ==>
        && todos == old(todos) && newTodoText == old(newTodoText)
        && dueDateInput == old(dueDateInput) && priority == old(priority)
      ensures !Text.IsBlank(old(newTodoText)) ==>
        && |todos| == |old(todos)| + 1 && todos[..|old(todos)|] == old(todos)
        && todos[|old(todos)|] == Todo(id, old(newTodoText), false, now,
                                       DueDateFromDraft(old(dueDateInput)), Some(old(priority)))
        && newTodoText == "" && dueDateInput == "" && priority == Medium
    {
      Text.TrimEmptyIffBlank(newTodoText);
      if Text.Trim(newTodoText) != "" {
        todos := todos + [NewTodo(id, newTodoText, now, dueDateInput, priority)];
        newTodoText := "";
        dueDateInput := "";
        priority := Medium;
      }
    }

    /** toggleTodo. */
    method ToggleTodo(id: string)
      modifies this`todos
      ensures todos == Toggle(old(todos), id)
    {
      todos := Toggle(todos, id);
    }

    /** deleteTodo. */
    method DeleteTodo(id: string)
      modifies this`todos
      ensures todos == Delete(old(todos), id)
    {
      todos := Delete(todos, id);
    }

    /** startEditing: opens the edit form on t and loads its fields into the
        drafts, an absent date as the empty field and an absent priority as
        medium. The list is not touched. */
    method StartEditing(t: Todo)
      modifies this`editingTodo, this`editText, this`dueDateInput, this`priority
      ensures editingTodo == Some(t.id) && editText == t.text
      ensures dueDateInput == (if t.dueDate.Some? then t.dueDate.value else "")
      ensures priority == (if t.priority.Some? then t.priority.value else Medium)
    {
      editingTodo := Some(t.id);
      editText := t.text;
      dueDateInput := DraftFromDueDate(t.dueDate);
      priority := DraftFromPriority(t.priority);
    }

    /** saveEdit: writes the drafts into the tasks with that identifier and
        closes the edit form. The drafts keep their values. */
    method SaveEdit(id: string)
      modifies this`todos, this`editingTodo
      ensures todos == Todos.SaveEdit(old(todos), id, editText, dueDateInput, priority)
      ensures editingTodo == None
    {
      todos := Todos.SaveEdit(todos, id, editText, dueDateInput, priority);
      editingTodo := None;
    }

    /** The edit form's cancel button: closes the form and nothing else; the
        drafts are not restored. */
    method CancelEdit()
      modifies this`editingTodo
      ensures editingTodo == None
    {
      editingTodo := None;
    }

    /** The filter button: opens or closes the filter menu. */
    method ToggleFilterMenu()
      modifies this`isFilterMenuOpen
      ensures isFilterMenuOpen == !old(isFilterMenuOpen)
    {
      isFilterMenuOpen := !isFilterMenuOpen;
    }

    /** A filter-menu entry: selects that filter and closes the menu. */
    method ChooseFilter(f: Filter)
      modifies this`filter, this`isFilterMenuOpen
      ensures filter == f && !isFilterMenuOpen
    {
      filter := f;
      isFilterMenuOpen := false;
    }
  }

  /** Opening a task for editing, changing every draft and cancelling leaves
      the list as it was and leaves the changed drafts in the shared fields. */
  method EditThenCancel(m: TaskManager, t: Todo, text: string, due: string, p: Priority)
    modifies m
    ensures m.todos == old(m.todos) && m.editingTodo == None
    ensures m.editText == text && m.dueDateInput == due && m.priority == p
    ensures m.newTodoText == old(m.newTodoText) && m.filter == old(m.filter)
  {
    m.StartEditing(t);
    m.ChangeEditText(text);
    m.ChangeDueDateInput(due);
    m.ChangePriority(p);
    m.CancelEdit();
  }

  /** The task the session below adds. */
  const Milk: Todo := Todo("1746799320000", "Buy milk", false, "2025-05-09T14:02:00.000Z", Some("2025-06-01"), Some(High))

  /** First part of the session: from an empty storage, add "Buy milk" with
      high priority and a due date. */
  method SessionAdd() returns (m: TaskManager)
    ensures fresh(m) && m.todos == [Seed, Milk]
    ensures m.newTodoText == "" && m.dueDateInput == "" && m.priority == Medium
  {
    m := new TaskManager(None);
    m.ChangeNewTodoText("Buy milk");
    assert !Text.IsBlank(m.newTodoText) by {
      assert !Text.IsWhitespace(m.newTodoText[0]);
    }
    m.ChangePriority(High);
    m.ChangeDueDateInput("2025-06-01");
    m.AddTodo(Milk.id, Milk.createdAt);
  }

  /** The session: add a task, complete it (one active, one completed), then
      delete the seed task. */
  method Session()
  {
    var m := SessionAdd();
    m.ToggleTodo(Milk.id);
    var done := Milk.(completed := true);
    assert m.todos == [Seed, done];
    CountsAfterToggle(m.todos);

    m.DeleteTodo(Seed.id);
    assert m.todos == [done] by {
      assert Lists.Filter([Seed, done][1..][1..], OtherThan(Seed.id)) == [];
    }
  }

  /** The counters of the session's two-task list after the toggle. */
  lemma CountsAfterToggle(ts: seq<Todo>)
    requires |ts| == 2 && !ts[0].completed && ts[1].completed
    ensures CompletedCount(ts) == 1 && ActiveCount(ts) == 1
  {
    assert ts[1..][1..] == [];
  }
}
