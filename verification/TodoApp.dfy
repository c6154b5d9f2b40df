/**
 * The state of the `App` component and its event handlers. Each handler is
 * one atomic transition: it replaces `todos`, `inputValue` or `filter` the
 * way the component's state setters do, with the new list computed by the
 * functions of module TodoList.
 */
module TodoApp {
  import opened JsString
  import opened TodoList

  class App {
    /** The list of records, in insertion order. */
    var todos: seq<Todo>
    /** The text field's current content. */
    var inputValue: string
    /** The selected view: 'all', 'active' or 'completed'. */
    var filter: string

    /** The initial state: no records, an empty input, the 'all' view. */
    constructor ()
      ensures todos == [] && inputValue == "" && filter == "all"
      ensures TextsNonBlank(todos)
    {
      todos := [];
      inputValue := "";
      filter := "all";
    }

    /** The input's `onChange`: the field now holds `value`. */
    method SetInputValue(value: string)
      modifies this`inputValue
      ensures inputValue == value
    {
      inputValue := value;
    }

    /** `addTodo`, with `now` standing for `Date.now()`. A blank input is
        ignored; otherwise the untrimmed input becomes a new active record at
        the end of the list and the input is cleared. */
    method AddTodo(now: int)
      modifies this`todos, this`inputValue
      ensures Blank(old(inputValue)) ==> todos == old(todos) && inputValue == old(inputValue)
      ensures !Blank(old(inputValue)) ==>
        && |todos| == |old(todos)| + 1
        && todos[..|old(todos)|] == old(todos)
        && todos[|old(todos)|] == Todo(now, old(inputValue), false)
        && inputValue == ""
      ensures TextsNonBlank(old(todos)) ==> TextsNonBlank(todos)
    {
      TrimEmptyIffBlank(inputValue);
      if Trim(inputValue) != "" {
        todos := todos + [Todo(now, inputValue, false)];
        inputValue := "";
      }
    }

    /** `toggleTodo(id)`: every record with that id changes its `completed`. */
    method ToggleTodo(id: int)
      modifies this`todos
      ensures todos == Toggle(old(todos), id)
      ensures TextsNonBlank(old(todos)) ==> TextsNonBlank(todos)
    {
      if TextsNonBlank(todos) {
        TogglePreservesTexts(todos, id);
      }
      todos := Toggle(todos, id);
    }

    /** `deleteTodo(id)`: every record with that id leaves the list. */
    method DeleteTodo(id: int)
      modifies this`todos
      ensures todos == Delete(old(todos), id)
      ensures TextsNonBlank(old(todos)) ==> TextsNonBlank(todos)
    {
      todos := Delete(todos, id);
    }

    /** A filter button's `onClick`: only the view changes, never the list. */
    method SetFilter(mode: string)
      modifies this`filter
      ensures filter == mode
      ensures todos == old(todos)
    {
      filter := mode;
    }

    /** `filteredTodos`: the records the current filter shows, in list order. */
    function FilteredTodos(): (r: seq<Todo>)
      reads this
      ensures IsSubsequence(r, todos)
      ensures forall t :: t in r <==> t in todos && Shows(filter, t)
      ensures forall t :: multiset(r)[t] == if Shows(filter, t) then multiset(todos)[t] else 0
      ensures filter != "active" && filter != "completed" ==> r == todos
    {
      Visible(todos, filter)
    }
  }

  /** A session: add "A", add "B", toggle "A"; the 'active' view then shows
      only "B" and the 'completed' view only "A". Clock readings 1 and 2
      stand for the two `Date.now()` calls. */
  method Session() returns (active: seq<Todo>, completed: seq<Todo>)
    ensures active == [Todo(2, "B", false)]
    ensures completed == [Todo(1, "A", true)]
  {
    var a, b := Todo(1, "A", true), Todo(2, "B", false);
    var app := new App();
    app.SetInputValue("A");
    assert !Blank(app.inputValue) by { assert !IsWhitespace(app.inputValue[0]); }
    app.AddTodo(1);
    app.SetInputValue("B");
    assert !Blank(app.inputValue) by { assert !IsWhitespace(app.inputValue[0]); }
    app.AddTodo(2);
    assert app.todos == [a.(completed := false), b];
    app.ToggleTodo(1);
    assert app.todos == [a, b];
    ViewsPartition(app.todos);
    app.SetFilter("active");
    active := app.FilteredTodos();
    app.SetFilter("completed");
    completed := app.FilteredTodos();
    assert b in active && a in completed;
    assert forall t :: t in active ==> t == b;
    assert forall t :: t in completed ==> t == a;
  }
}
