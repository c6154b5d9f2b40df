# To-do list store

A model of the to-do store inside the `App` component of a single-page
React to-do list. Its state is a list of records `{ id, text, completed }`,
the text field's content `inputValue` and the selected view `filter`. It has
one handler for each user action:

- `addTodo` appends a new record, or does nothing when the input is blank.
- `toggleTodo(id)` flips `completed`.
- `deleteTodo(id)` removes records.
- The filter buttons choose the view.
- `filteredTodos` derives the visible records from the list and the filter.

The project has three modules:

- `JsString` (JsString.dfy) holds JavaScript's `String.prototype.trim`. It
  uses the ECMAScript white-space set (WhiteSpace and LineTerminator code
  points). It also proves that `s.trim() !== ''` holds exactly when `s` is
  not all white space.
- `TodoList` (TodoList.dfy) holds the record datatype and the pure list
  functions. These are `Keep` (`Array.prototype.filter`), `Toggle` (the `map`
  in `toggleTodo`), `Delete` and `Visible`. The module also proves the lemmas
  that relate these functions to each other.
- `TodoApp` (TodoApp.dfy) holds the class `App` with the component's three
  state variables, with one method per handler. It also holds `Session`, a
  sequence of calls (add, add, toggle, filter) whose postcondition states the
  two views it ends with.

The model follows the code in two places where a reader might expect
otherwise:

- `addTodo` stores the input as typed, surrounding white space included.
  Only the emptiness test trims.
- Ids come from the clock and nothing checks that they are unique. So
  `toggleTodo` and `deleteTodo` act on every record that carries the id, and
  no lemma assumes that ids are distinct.

## Model

| member | source | states |
|---|---|---|
| JsString.TrimStart | Todo.jsx:92 | the result is a suffix of the input, everything cut off is white space, and the result does not start with white space |
| JsString.TrimEnd | Todo.jsx:92 | the result is a prefix of the input, everything cut off is white space, and the result does not end with white space |
| JsString.Trim | Todo.jsx:92 | the result is the middle of the input: what precedes it and what follows it are white space only, and neither of its own ends is white space |
| JsString.TrimEndOfSuffix | Todo.jsx:92 | trimming the end of a suffix that does not start with white space yields a middle of the input, followed only by white space, with no white space at either of its ends |
| JsString.TrimEmptyIffBlank | Todo.jsx:92 | `trim()` yields `''` exactly when every character of the input is white space |
| JsString.TrimUnpadded | Todo.jsx:92 | a string with no white space at either end is returned unchanged by `trim()` |
| TodoList.Keep | Todo.jsx:107 | `filter` keeps exactly the records that pass the test, as an order-preserving subsequence; the length never grows, stays the same only when every record passes, and the list is returned unchanged then |
| TodoList.KeepCounts | Todo.jsx:107 | `filter` keeps every copy of a record that passes the test and no copy of one that fails: each record's count in the result is its count in the input, or zero |
| TodoList.Toggle | Todo.jsx:100-102 | same length and order; every `id` and `text` kept; `completed` negated exactly on the records whose id matches; other records identical |
| TodoList.Delete | Todo.jsx:107 | no record with the id survives; every record with another id survives with all its copies, in its relative order; the list gets shorter exactly when the id is present and is unchanged when it is absent |
| TodoList.Visible | Todo.jsx:110-114 | the view is an order-preserving subsequence holding every copy of each record the filter shows; 'active' keeps exactly the records not completed, 'completed' exactly the completed ones, any other filter value returns the list unchanged |
| TodoList.KeepAppend | Todo.jsx:93-107 | filtering the list with a record appended equals filtering the list and the new record separately, then joining the results |
| TodoList.KeepComplement | Todo.jsx:110-114 | filters by a test and by its negation split the list: the lengths sum to the whole and no record is in both |
| TodoList.ViewsPartition | Todo.jsx:110-114 | the 'active' and 'completed' views partition the list: their lengths sum to its length and no record appears in both |
| TodoList.ToggleTwice | Todo.jsx:98-104 | toggling the same id twice restores the original list |
| TodoList.ToggleAbsent | Todo.jsx:100-102 | toggling an id that no record carries leaves the list unchanged |
| TodoList.ToggleCommutes | Todo.jsx:98-104 | toggles of two ids give the same list in either order |
| TodoList.DeleteAfterToggle | Todo.jsx:98-108 | deleting an id after toggling it gives the same list as deleting it directly |
| TodoList.AddThenDelete | Todo.jsx:91-108 | deleting the id of a record just added removes it along with every older record of that id |
| TodoList.AddThenView | Todo.jsx:91-114 | a record just added appears last in the 'active' view and leaves the 'completed' view unchanged |
| TodoList.TogglePreservesTexts | Todo.jsx:98-104 | if no text in the list is blank, none is blank after a toggle |
| TodoApp.App.constructor | Todo.jsx:76-78 | the initial state is an empty list, an empty input and the 'all' filter |
| TodoApp.App.SetInputValue | Todo.jsx:123 | the input field holds the new value; list and filter are untouched |
| TodoApp.App.AddTodo | Todo.jsx:91-96 | a blank input changes nothing. Otherwise the list gains one record at the end with the given id, the untrimmed input and `completed = false`, the earlier records are unchanged, and the input becomes `''`. A list with no blank text keeps none |
| TodoApp.App.ToggleTodo | Todo.jsx:98-104 | the new list is `Toggle` of the old one; the input and the filter are untouched |
| TodoApp.App.DeleteTodo | Todo.jsx:106-108 | the new list is `Delete` of the old one; the input and the filter are untouched |
| TodoApp.App.SetFilter | Todo.jsx:129-131 | the filter takes the new mode and the list is unchanged |
| TodoApp.App.FilteredTodos | Todo.jsx:110-114 | the view is an order-preserving subsequence of the list holding exactly the records the current filter shows, every copy of each; any filter other than 'active' and 'completed' shows the whole list |
| TodoApp.Session | Todo.jsx:91-114 | after adding "A" and "B" and toggling "A", the 'active' view is exactly ["B"] and the 'completed' view exactly ["A"] (completed) |

## Left out

- The styled-components definitions (Todo.jsx:4-73) and the JSX render tree (Todo.jsx:116-142). They are presentation only. The clicks they wire up are modelled as the handler methods.
- The persistence effects (Todo.jsx:80-89). They read and write `localStorage` through `JSON.parse` and `JSON.stringify`, which are browser APIs outside this model. A list loaded from storage could also hold blank texts, which is why the methods promise `TextsNonBlank` only when it held before the call.
- `Date.now()` (Todo.jsx:93) is a clock reading. It is the `now` parameter of `AddTodo`, and ids are modelled as unbounded integers rather than JavaScript numbers.
- React's `useState` batching and re-rendering. Each handler is one atomic transition that reads the current state.
- JsString.IsWhitespace: the Unicode category Zs is taken as of Unicode 15. A JavaScript engine built on another Unicode version may differ.
