/** The todo record and the list transformations `useTodosStatus` applies through its
    `setTodos` updaters: `filter` for removal and `map` for toggling and editing,
    plus a by-id lookup. All of them are pure functions of the previous list. */
module TodoList {
  import opened Optional

  /** One stored record, with the field names of the persisted JSON objects. */
  datatype Todo = Todo(id: nat, content: string, regDate: string, isCompleted: bool)

  /** Some record of the list carries `id`. */
  predicate HasId(todos: seq<Todo>, id: nat) {
    exists i :: 0 <= i < |todos| && todos[i].id == id
  }

  /** The ids of the list, in list order. */
  function Ids(todos: seq<Todo>): seq<nat> {
    seq(|todos|, i requires 0 <= i < |todos| => todos[i].id)
  }

  /** The order `addTodo` produces: every record's id is larger than the ids of all
      records after it (newest first). In particular no id occurs twice. */
  ghost predicate NewestFirst(todos: seq<Todo>) {
    forall i, j :: 0 <= i < j < |todos| ==> todos[i].id > todos[j].id
  }

  /** `todos.filter((todo) => todo.id !== id)`: no record with that id is left, and the
      list never grows. */
  function RemoveById(todos: seq<Todo>, id: nat): (r: seq<Todo>)
    ensures forall i :: 0 <= i < |r| ==> r[i].id != id
    ensures |r| <= |todos|
  {
    if todos == [] then []
    else if todos[0].id != id then [todos[0]] + RemoveById(todos[1..], id)
    else RemoveById(todos[1..], id)
  }

  /** Removal drops every record with the id and keeps every other record with its
      multiplicity. */
  lemma {:induction false} RemoveByIdCounts(todos: seq<Todo>, id: nat)
    ensures forall t :: multiset(RemoveById(todos, id))[t] == if t.id == id then 0 else multiset(todos)[t]
  {
    if todos != [] {
      RemoveByIdCounts(todos[1..], id);
      assert todos == [todos[0]] + todos[1..];
    }
  }

  /** Removal distributes over concatenation, so the kept records stay in their
      original relative order. */
  lemma {:induction false} RemoveByIdAppend(a: seq<Todo>, b: seq<Todo>, id: nat)
    ensures RemoveById(a + b, id) == RemoveById(a, id) + RemoveById(b, id)
  {
    if a != [] {
      assert (a + b)[1..] == a[1..] + b;
      RemoveByIdAppend(a[1..], b, id);
    } else {
      assert a + b == b;
    }
  }

  /** Removing an id no record carries keeps the list as it is. */
  lemma {:induction false} RemoveByIdAbsent(todos: seq<Todo>, id: nat)
    requires !HasId(todos, id)
    ensures RemoveById(todos, id) == todos
  {
    if todos != [] {
      assert todos[0].id != id;
      assert !HasId(todos[1..], id) by {
        forall i | 0 <= i < |todos[1..]| ensures todos[1..][i].id != id {
          assert todos[1..][i] == todos[i + 1];
        }
      }
      RemoveByIdAbsent(todos[1..], id);
      assert todos == [todos[0]] + todos[1..];
    }
  }

  /** Removal leaves the list unchanged exactly when no record has the id. */
  lemma RemoveByIdUnchangedIff(todos: seq<Todo>, id: nat)
    ensures RemoveById(todos, id) == todos <==> !HasId(todos, id)
  {
    if HasId(todos, id) {
      var i :| 0 <= i < |todos| && todos[i].id == id;
      RemoveByIdCounts(todos, id);
      assert todos[i] in multiset(todos);
      assert multiset(RemoveById(todos, id))[todos[i]] == 0;
    } else {
      RemoveByIdAbsent(todos, id);
    }
  }

  /** Removing the same id twice is removing it once. */
  lemma RemoveByIdIdempotent(todos: seq<Todo>, id: nat)
    ensures RemoveById(RemoveById(todos, id), id) == RemoveById(todos, id)
  {
    RemoveByIdUnchangedIff(RemoveById(todos, id), id);
  }

  /** Every kept record is a record of the original list. */
  lemma RemoveByIdSubset(todos: seq<Todo>, id: nat, t: Todo)
    requires t in RemoveById(todos, id)
    ensures t in todos && t.id != id
  {
    RemoveByIdCounts(todos, id);
    assert t in multiset(RemoveById(todos, id));
  }

  /** Removal keeps the newest-first order. */
  lemma {:induction false} RemoveByIdNewestFirst(todos: seq<Todo>, id: nat)
    requires NewestFirst(todos)
    ensures NewestFirst(RemoveById(todos, id))
  {
    if todos != [] {
      var rest := RemoveById(todos[1..], id);
      assert NewestFirst(todos[1..]);
      RemoveByIdNewestFirst(todos[1..], id);
      if todos[0].id != id {
        forall j | 0 <= j < |rest| ensures todos[0].id > rest[j].id {
          RemoveByIdSubset(todos[1..], id, rest[j]);
        }
      }
    }
  }

  /** The record `toggleComplete` writes in place of `todo`. */
  function Flip(todo: Todo, id: nat): Todo {
    if todo.id == id then todo.(isCompleted := !todo.isCompleted) else todo
  }

  /** `todos.map(...)` of `toggleComplete`: the completion flag is negated on the records
      with that id and kept on the others; ids, contents, dates and order never change. */
  function ToggleById(todos: seq<Todo>, id: nat): (r: seq<Todo>)
    ensures |r| == |todos|
    ensures forall i :: 0 <= i < |todos| ==>
      && r[i].id == todos[i].id
      && r[i].content == todos[i].content
      && r[i].regDate == todos[i].regDate
      && r[i].isCompleted == (todos[i].isCompleted != (todos[i].id == id))
  {
    if todos == [] then [] else [Flip(todos[0], id)] + ToggleById(todos[1..], id)
  }

  /** Toggling is an involution. */
  lemma {:induction false} ToggleTwice(todos: seq<Todo>, id: nat)
    ensures ToggleById(ToggleById(todos, id), id) == todos
  {
    var r := ToggleById(ToggleById(todos, id), id);
    assert forall i :: 0 <= i < |todos| ==> r[i] == todos[i];
  }

  /** Toggling changes nothing exactly when no record has the id. */
  lemma ToggleUnchangedIff(todos: seq<Todo>, id: nat)
    ensures ToggleById(todos, id) == todos <==> !HasId(todos, id)
  {
    var r := ToggleById(todos, id);
    if HasId(todos, id) {
      var i :| 0 <= i < |todos| && todos[i].id == id;
      assert r[i].isCompleted != todos[i].isCompleted;
    } else {
      assert forall i :: 0 <= i < |todos| ==> r[i] == todos[i];
    }
  }

  /** The record `editTodo` writes in place of `todo`. */
  function Rewrite(todo: Todo, id: nat, content: string): Todo {
    if todo.id == id then todo.(content := content) else todo
  }

  /** `todos.map(...)` of `editTodo`: the content of the records with that id becomes
      `content`; ids, dates, completion flags, length and order never change. */
  function EditById(todos: seq<Todo>, id: nat, content: string): (r: seq<Todo>)
    ensures |r| == |todos|
    ensures forall i :: 0 <= i < |todos| ==>
      && r[i].id == todos[i].id
      && r[i].regDate == todos[i].regDate
      && r[i].isCompleted == todos[i].isCompleted
      && r[i].content == (if todos[i].id == id then content else todos[i].content)
  {
    if todos == [] then [] else [Rewrite(todos[0], id, content)] + EditById(todos[1..], id, content)
  }

  /** Editing an absent id is a no-op. */
  lemma EditAbsent(todos: seq<Todo>, id: nat, content: string)
    requires !HasId(todos, id)
    ensures EditById(todos, id, content) == todos
  {
    var r := EditById(todos, id, content);
    assert forall i :: 0 <= i < |todos| ==> r[i] == todos[i];
  }

  /** Of two edits of the same record, the later one wins. */
  lemma EditTwice(todos: seq<Todo>, id: nat, first: string, second: string)
    ensures EditById(EditById(todos, id, first), id, second) == EditById(todos, id, second)
  {
    var r := EditById(EditById(todos, id, first), id, second);
    var e := EditById(todos, id, second);
    assert forall i :: 0 <= i < |todos| ==> r[i] == e[i];
  }

  /** Neither toggling nor editing changes the ids or their order. */
  lemma MapsKeepIds(todos: seq<Todo>, id: nat, content: string)
    ensures Ids(ToggleById(todos, id)) == Ids(todos)
    ensures Ids(EditById(todos, id, content)) == Ids(todos)
  {
  }

  /** Position of the first record with `id`, if any. */
  function IndexOfId(todos: seq<Todo>, id: nat): (r: Option<nat>)
    ensures r.None? <==> !HasId(todos, id)
    ensures r.Some? ==> r.value < |todos| && todos[r.value].id == id
    ensures r.Some? ==> forall j :: 0 <= j < r.value ==> todos[j].id != id
  {
    if todos == [] then None
    else if todos[0].id == id then Some(0)
    else match IndexOfId(todos[1..], id)
      case None => None
      case Some(k) => Some(k + 1)
  }

  /** The by-id lookup the option drawer uses to find the selected record: the first
      record with that id, or nothing when none has it. */
  function FindById(todos: seq<Todo>, id: nat): (r: Option<Todo>)
    ensures r.None? <==> !HasId(todos, id)
    ensures r.Some? ==> r.value in todos && r.value.id == id
  {
    match IndexOfId(todos, id)
    case None => None
    case Some(k) => Some(todos[k])
  }

  /** In a newest-first list the lookup returns the one record with that id. */
  lemma FindByIdUnique(todos: seq<Todo>, id: nat, i: nat)
    requires NewestFirst(todos) && i < |todos| && todos[i].id == id
    ensures FindById(todos, id) == Some(todos[i])
  {
  }

  /** After an edit the lookup sees the old record with only its content replaced. */
  lemma FindAfterEdit(todos: seq<Todo>, id: nat, content: string)
    ensures FindById(EditById(todos, id, content), id) ==
      match FindById(todos, id)
      case None => None
      case Some(t) => Some(t.(content := content))
  {
    var r := EditById(todos, id, content);
    assert IndexOfId(r, id) == IndexOfId(todos, id) by {
      IndexesAgree(todos, r, id);
    }
  }

  /** After a toggle the lookup sees the old record with only its flag negated. */
  lemma FindAfterToggle(todos: seq<Todo>, id: nat)
    ensures FindById(ToggleById(todos, id), id) ==
      match FindById(todos, id)
      case None => None
      case Some(t) => Some(t.(isCompleted := !t.isCompleted))
  {
    var r := ToggleById(todos, id);
    assert IndexOfId(r, id) == IndexOfId(todos, id) by {
      IndexesAgree(todos, r, id);
    }
  }

  /** Two lists with the same ids at the same positions agree on every lookup index. */
  lemma {:induction false} IndexesAgree(a: seq<Todo>, b: seq<Todo>, id: nat)
    requires |a| == |b| && forall i :: 0 <= i < |a| ==> a[i].id == b[i].id
    ensures IndexOfId(a, id) == IndexOfId(b, id)
  {
    if a != [] {
      IndexesAgree(a[1..], b[1..], id);
    }
  }
}
