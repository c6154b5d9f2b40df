/**
 * The to-do list of the `App` component as a value: the records, and the
 * new lists that `toggleTodo`, `deleteTodo` and the filtered view compute
 * from the current one with `Array.prototype.map` and
 * `Array.prototype.filter`.
 *
 * Ids come from the clock and are not checked for uniqueness, so toggle
 * and delete act on every record that carries the id.
 */
module TodoList {
  import opened JsString

  /** One to-do record `{ id, text, completed }`. */
  datatype Todo = Todo(id: int, text: string, completed: bool)

  /** `r` is `s` with zero or more records dropped, the rest kept in order. */
  ghost predicate IsSubsequence(r: seq<Todo>, s: seq<Todo>)
    decreases |s|
  {
    if r == [] then true
    else if s == [] then false
    else (r[0] == s[0] && IsSubsequence(r[1..], s[1..])) || IsSubsequence(r, s[1..])
  }

  /** Every record's text is non-blank: what `addTodo` lets into the list. */
  ghost predicate TextsNonBlank(s: seq<Todo>) {
    forall t :: t in s ==> !Blank(t.text)
  }

  /** `Array.prototype.filter`: the records that pass `p`, in their order. */
  function Keep(s: seq<Todo>, p: Todo -> bool): (r: seq<Todo>)
    ensures forall t :: t in r <==> t in s && p(t)
    ensures IsSubsequence(r, s)
    ensures |r| <= |s|
    ensures |r| == |s| <==> forall t :: t in s ==> p(t)
    ensures (forall t :: t in s ==> p(t)) ==> r == s
  {
    if s == [] then []
    else
      var rest := Keep(s[1..], p);
      assert s == [s[0]] + s[1..];
      if p(s[0]) then
        var r := [s[0]] + rest;
        assert r[1..] == rest;
        r
      else
        rest
  }

  /** `filter` keeps every copy of a record that passes and none of one that fails. */
  lemma {:induction false} KeepCounts(s: seq<Todo>, p: Todo -> bool)
    ensures forall t :: multiset(Keep(s, p))[t] == if p(t) then multiset(s)[t] else 0
  {
    if s != [] {
      KeepCounts(s[1..], p);
      assert s == [s[0]] + s[1..];
      assert multiset(s) == multiset([s[0]]) + multiset(s[1..]);
      if p(s[0]) {
        assert Keep(s, p) == [s[0]] + Keep(s[1..], p);
        assert multiset(Keep(s, p)) == multiset([s[0]]) + multiset(Keep(s[1..], p));
      }
    }
  }

  /** One record as `toggleTodo(id)` maps it: flipped when its id matches. */
  function Flip(t: Todo, id: int): Todo {
    if t.id == id then t.(completed := !t.completed) else t
  }

  /** `toggleTodo(id)`: the `map` that flips `completed` where the id matches. */
  function Toggle(s: seq<Todo>, id: int): (r: seq<Todo>)
    ensures |r| == |s|
    ensures forall i :: 0 <= i < |s| ==> r[i].id == s[i].id && r[i].text == s[i].text
    ensures forall i :: 0 <= i < |s| ==> (r[i].completed <==> (s[i].id == id) != s[i].completed)
    ensures forall i :: 0 <= i < |s| && s[i].id != id ==> r[i] == s[i]
  {
    if s == [] then [] else [Flip(s[0], id)] + Toggle(s[1..], id)
  }

  /** `deleteTodo(id)`: the `filter` that drops every record with that id. */
  function Delete(s: seq<Todo>, id: int): (r: seq<Todo>)
    ensures forall t :: t in r ==> t in s && t.id != id
    ensures forall t :: t in s && t.id != id ==> t in r
    ensures forall t: Todo :: t.id != id ==> multiset(r)[t] == multiset(s)[t]
    ensures IsSubsequence(r, s)
    ensures |r| <= |s|
    ensures |r| < |s| <==> exists t :: t in s && t.id == id
    ensures (forall t :: t in s ==> t.id != id) ==> r == s
  {
    KeepCounts(s, (t: Todo) => t.id != id);
    Keep(s, (t: Todo) => t.id != id)
  }

  /** The callback of `filteredTodos`: does `filter` show record `t`? */
  predicate Shows(filter: string, t: Todo) {
    if filter == "active" then !t.completed
    else if filter == "completed" then t.completed
    else true
  }

  /** `filteredTodos`: the visible records under the current filter. */
  function Visible(s: seq<Todo>, filter: string): (r: seq<Todo>)
    ensures IsSubsequence(r, s)
    ensures forall t :: multiset(r)[t] == if Shows(filter, t) then multiset(s)[t] else 0
    ensures filter == "active" ==> forall t :: t in r <==> t in s && !t.completed
    ensures filter == "completed" ==> forall t :: t in r <==> t in s && t.completed
    ensures filter != "active" && filter != "completed" ==> r == s
  {
    KeepCounts(s, t => Shows(filter, t));
    Keep(s, t => Shows(filter, t))
  }

  /** Filtering distributes over concatenation. */
  lemma {:induction false} KeepAppend(a: seq<Todo>, b: seq<Todo>, p: Todo -> bool)
    ensures Keep(a + b, p) == Keep(a, p) + Keep(b, p)
  {
    if a != [] {
      assert (a + b)[0] == a[0] && (a + b)[1..] == a[1..] + b;
      KeepAppend(a[1..], b, p);
      if p(a[0]) {
        assert Keep(a + b, p) == [a[0]] + (Keep(a[1..], p) + Keep(b, p));
      }
    } else {
      assert a + b == b;
    }
  }

  /** Filters by a predicate and by its negation split the list in two. */
  lemma {:induction false} KeepComplement(s: seq<Todo>, p: Todo -> bool, q: Todo -> bool)
    requires forall t :: q(t) == !p(t)
    ensures |Keep(s, p)| + |Keep(s, q)| == |s|
    ensures forall t :: !(t in Keep(s, p) && t in Keep(s, q))
  {
    if s != [] {
      KeepComplement(s[1..], p, q);
    }
  }

  /** The 'active' and 'completed' views partition the list. */
  lemma ViewsPartition(s: seq<Todo>)
    ensures |Visible(s, "active")| + |Visible(s, "completed")| == |s|
    ensures forall t :: !(t in Visible(s, "active") && t in Visible(s, "completed"))
  {
    KeepComplement(s, t => Shows("active", t), t => Shows("completed", t));
  }

  /** Toggling the same id twice gives back the original list. */
  lemma ToggleTwice(s: seq<Todo>, id: int)
    ensures Toggle(Toggle(s, id), id) == s
  {
    var r := Toggle(Toggle(s, id), id);
    assert forall i :: 0 <= i < |s| ==> r[i] == s[i];
  }

  /** Toggling an id no record carries changes nothing. */
  lemma ToggleAbsent(s: seq<Todo>, id: int)
    requires forall t :: t in s ==> t.id != id
    ensures Toggle(s, id) == s
  {
    assert forall i :: 0 <= i < |s| ==> s[i] in s;
  }

  /** Toggles of two ids commute. */
  lemma {:induction false} ToggleCommutes(s: seq<Todo>, a: int, b: int)
    ensures Toggle(Toggle(s, a), b) == Toggle(Toggle(s, b), a)
  {
    var l, r := Toggle(Toggle(s, a), b), Toggle(Toggle(s, b), a);
    assert forall i :: 0 <= i < |s| ==> l[i] == r[i];
  }

  /** Deleting an id removes the same records whether or not they were toggled first. */
  lemma {:induction false} DeleteAfterToggle(s: seq<Todo>, id: int)
    ensures Delete(Toggle(s, id), id) == Delete(s, id)
  {
    if s != [] {
      DeleteAfterToggle(s[1..], id);
      assert Toggle(s, id)[1..] == Toggle(s[1..], id);
    }
  }

  /** Deleting the id of a freshly added record removes that record too. */
  lemma AddThenDelete(s: seq<Todo>, id: int, text: string)
    ensures Delete(s + [Todo(id, text, false)], id) == Delete(s, id)
  {
    KeepAppend(s, [Todo(id, text, false)], (t: Todo) => t.id != id);
  }

  /** A freshly added record shows last in the 'active' view, never in the 'completed' one. */
  lemma AddThenView(s: seq<Todo>, id: int, text: string)
    ensures Visible(s + [Todo(id, text, false)], "active") == Visible(s, "active") + [Todo(id, text, false)]
    ensures Visible(s + [Todo(id, text, false)], "completed") == Visible(s, "completed")
  {
    KeepAppend(s, [Todo(id, text, false)], t => Shows("active", t));
    KeepAppend(s, [Todo(id, text, false)], t => Shows("completed", t));
  }

  /** Toggling never makes a text blank (it never touches a text). */
  lemma TogglePreservesTexts(s: seq<Todo>, id: int)
    requires TextsNonBlank(s)
    ensures TextsNonBlank(Toggle(s, id))
  {
    var r := Toggle(s, id);
    forall t | t in r ensures !Blank(t.text) {
      var i :| 0 <= i < |r| && r[i] == t;
      assert s[i] in s;
    }
  }
}
