/** `useTodosStatus`: the list of todos, the last-assigned-id counter, their start-up load
    from local storage and the effect that writes both back after every change. The
    operations are specified by `Step`, a pure function of the previous state; the class
    `TodosStatus` holds the state and performs them in place. */
module TodoStore {
  import opened Optional
  import opened TodoList

  /** The in-memory state: the list (newest first) and the counter. */
  datatype Store = Store(todos: seq<Todo>, lastTodoId: nat)

  /** What every state reached through the operations satisfies: newest-first order,
      and every id lies between 1 and the counter, so the next id is fresh. */
  ghost predicate WellFormed(s: Store) {
    && NewestFirst(s.todos)
    && forall i :: 0 <= i < |s.todos| ==> 1 <= s.todos[i].id <= s.lastTodoId
  }

  /** The four store operations, with the values the caller supplies. The date of a new
      record (`new Date().toLocaleString()`) is an input. */
  datatype Op =
    | Add(content: string, regDate: string)
    | Remove(id: nat)
    | Toggle(id: nat)
    | Edit(id: nat, content: string)

  /** One operation as one atomic step. `Add` increments the counter and prepends an
      uncompleted record carrying the new counter value; the others rewrite the list
      and leave the counter alone. */
  function Step(s: Store, op: Op): (r: Store)
    ensures r.lastTodoId == if op.Add? then s.lastTodoId + 1 else s.lastTodoId
    ensures op.Add? ==> |r.todos| == |s.todos| + 1 && r.todos[0].id == r.lastTodoId
    ensures op.Remove? ==> |r.todos| <= |s.todos| && !HasId(r.todos, op.id)
    ensures (op.Toggle? || op.Edit?) ==> Ids(r.todos) == Ids(s.todos)
  {
    match op
    case Add(content, regDate) =>
      Store([Todo(s.lastTodoId + 1, content, regDate, false)] + s.todos, s.lastTodoId + 1)
    case Remove(id) => s.(todos := RemoveById(s.todos, id))
    case Toggle(id) => s.(todos := ToggleById(s.todos, id))
    case Edit(id, content) => s.(todos := EditById(s.todos, id, content))
  }

  /** `addTodo` hands out the old counter plus one from any state; the previous records
      follow the new one unchanged. In a well-formed state no record carries that id. */
  lemma AddAssignsFreshId(s: Store, content: string, regDate: string)
    ensures var r := Step(s, Add(content, regDate));
      && r.lastTodoId == s.lastTodoId + 1
      && (WellFormed(s) ==> !HasId(s.todos, r.lastTodoId))
      && r.todos[0] == Todo(r.lastTodoId, content, regDate, false)
      && r.todos[1..] == s.todos
  {
    var r := Step(s, Add(content, regDate));
    assert r.todos[1..] == s.todos;
  }

  /** Every operation keeps the state well formed. */
  lemma StepPreservesWellFormed(s: Store, op: Op)
    requires WellFormed(s)
    ensures WellFormed(Step(s, op))
  {
    match op
    case Add(content, regDate) =>
    case Remove(id) =>
      RemoveByIdNewestFirst(s.todos, id);
      var r := RemoveById(s.todos, id);
      forall i | 0 <= i < |r| ensures 1 <= r[i].id <= s.lastTodoId {
        RemoveByIdSubset(s.todos, id, r[i]);
      }
    case Toggle(id) =>
    case Edit(id, content) =>
  }

  /** The state after a sequence of operations. */
  function Run(s: Store, ops: seq<Op>): Store
    decreases |ops|
  {
    if ops == [] then s else Run(Step(s, ops[0]), ops[1..])
  }

  /** The ids the `Add` operations of `ops` hand out, in order. */
  function Issued(s: Store, ops: seq<Op>): seq<nat>
    decreases |ops|
  {
    if ops == [] then []
    else (if ops[0].Add? then [s.lastTodoId + 1] else []) + Issued(Step(s, ops[0]), ops[1..])
  }

  /** Across any interleaving of operations the issued ids are the consecutive numbers
      after the starting counter, so they are strictly increasing and never repeat,
      however many records are removed in between; the counter ends at the last one. */
  lemma {:induction false} IssuedIdsConsecutive(s: Store, ops: seq<Op>)
    ensures Run(s, ops).lastTodoId == s.lastTodoId + |Issued(s, ops)|
    ensures forall i :: 0 <= i < |Issued(s, ops)| ==> Issued(s, ops)[i] == s.lastTodoId + 1 + i
    decreases |ops|
  {
    if ops != [] {
      IssuedIdsConsecutive(Step(s, ops[0]), ops[1..]);
    }
  }

  /** Starting from a well-formed state, every state reached is well formed and no
      issued id is the id of a record that existed before. */
  lemma {:induction false} RunPreservesWellFormed(s: Store, ops: seq<Op>)
    requires WellFormed(s)
    ensures WellFormed(Run(s, ops))
    ensures forall i :: 0 <= i < |Issued(s, ops)| ==> !HasId(s.todos, Issued(s, ops)[i])
    decreases |ops|
  {
    IssuedIdsConsecutive(s, ops);
    if ops != [] {
      StepPreservesWellFormed(s, ops[0]);
      RunPreservesWellFormed(Step(s, ops[0]), ops[1..]);
    }
  }

  /** Start empty, add two records, remove the first, add a third: the third gets id 3,
      not 2, and the list is newest first. */
  lemma ScenarioCounterSurvivesRemoval(d: string)
    ensures var ops := [Add("buy milk", d), Add("call mom", d), Remove(1), Add("third", d)];
      && Issued(Store([], 0), ops) == [1, 2, 3]
      && Run(Store([], 0), ops).todos == [Todo(3, "third", d, false), Todo(2, "call mom", d, false)]
  {
    var ops := [Add("buy milk", d), Add("call mom", d), Remove(1), Add("third", d)];
    var t1, t2, t3 := Todo(1, "buy milk", d, false), Todo(2, "call mom", d, false), Todo(3, "third", d, false);
    var s1, s2, s3, s4 := Store([t1], 1), Store([t2, t1], 2), Store([t2], 2), Store([t3, t2], 3);
    assert Step(Store([], 0), ops[0]) == s1;
    assert Step(s1, ops[1]) == s2;
    assert Step(s2, ops[2]) == s3 by {
      assert RemoveById([t1], 1) == [];
      assert RemoveById([t2, t1], 1) == [t2] + RemoveById([t1], 1);
    }
    assert Step(s3, ops[3]) == s4;
    var rest1 := ops[1..];
    var rest2 := rest1[1..];
    var rest3 := rest2[1..];
    assert rest3[1..] == [];
    assert Run(s4, rest3[1..]) == s4 && Issued(s4, rest3[1..]) == [];
    assert Run(s3, rest3) == s4 && Issued(s3, rest3) == [3];
    assert Run(s2, rest2) == s4 && Issued(s2, rest2) == [3];
    assert Run(s1, rest1) == s4 && Issued(s1, rest1) == [2, 3];
  }

  /** One local-storage entry as `JSON.parse(localStorage.getItem(key))` sees it. */
  datatype Entry<+T> = Missing | Unparsable | Holds(value: T)

  /** The two persisted entries, under the keys `todos` and `lastTodoId`. */
  datatype Saved = Saved(todos: Entry<seq<Todo>>, lastTodoId: Entry<nat>)

  /** `JSON.parse` throws on text it cannot parse; nothing catches it. */
  datatype LoadError = ParseError

  /** What the persistence effect writes for a state: both entries, in full. */
  function Snapshot(s: Store): (r: Saved)
    ensures r.todos.Holds? && r.lastTodoId.Holds?
  {
    Saved(Holds(s.todos), Holds(s.lastTodoId))
  }

  /** `JSON.parse(stored) || fallback`: a missing entry becomes the fallback, an
      unparsable one throws. */
  function LoadEntry<T>(e: Entry<T>, fallback: T): (r: Result<T, LoadError>)
    ensures r.Err? <==> e.Unparsable?
    ensures e.Holds? ==> r == Ok(e.value)
    ensures e.Missing? ==> r == Ok(fallback)
  {
    match e
    case Missing => Ok(fallback)
    case Unparsable => Err(ParseError)
    case Holds(v) => Ok(v)
  }

  /** The start-up state: the stored list or `[]`, the stored counter or `0`; it fails
      exactly when one of the entries cannot be parsed. */
  function Load(saved: Saved): (r: Result<Store, LoadError>)
    ensures r.Err? <==> saved.todos.Unparsable? || saved.lastTodoId.Unparsable?
    ensures r.Ok? ==> r.value == Store(if saved.todos.Holds? then saved.todos.value else [],
                                       if saved.lastTodoId.Holds? then saved.lastTodoId.value else 0)
  {
    match LoadEntry(saved.todos, [])
    case Err(e) => Err(e)
    case Ok(todos) =>
      match LoadEntry(saved.lastTodoId, 0)
      case Err(e) => Err(e)
      case Ok(last) => Ok(Store(todos, last))
  }

  /** A stored list next to a missing counter loads with counter 0, and a non-empty list
      then breaks well-formedness: the next add would repeat an id. */
  lemma LoadListWithoutCounter(todos: seq<Todo>)
    requires todos != []
    ensures Load(Saved(Holds(todos), Missing)) == Ok(Store(todos, 0))
    ensures !WellFormed(Store(todos, 0))
  {
    assert !(1 <= todos[0].id <= 0);
  }

  /** With nothing stored the start-up state is the empty, well-formed store. */
  lemma LoadNothing()
    ensures Load(Saved(Missing, Missing)) == Ok(Store([], 0))
    ensures WellFormed(Store([], 0))
  {
  }

  /** Reloading what the effect wrote restores the same list, field for field, and
      the same counter. */
  lemma LoadSnapshot(s: Store)
    ensures Load(Snapshot(s)) == Ok(s)
  {
  }

  /** The state of one `useTodosStatus` instance; `saved` is the local storage it
      writes to. */
  class TodosStatus {
    var todos: seq<Todo>
    var lastTodoId: nat
    var saved: Saved

    function State(): Store
      reads this
    {
      Store(todos, lastTodoId)
    }

    /** The storage holds exactly the in-memory list and counter. */
    ghost predicate Synced()
      reads this
    {
      saved == Snapshot(State())
    }

    /** The state initialisers followed by the effect's first run on mount. */
    constructor (initial: Store)
      ensures State() == initial && Synced()
    {
      todos, lastTodoId := initial.todos, initial.lastTodoId;
      saved := Snapshot(initial);
    }

    /** Mounting against stored data: fails where `JSON.parse` throws, otherwise starts
        from the loaded state and leaves storage in sync with it. */
    static method Open(stored: Saved) returns (r: Result<TodosStatus, LoadError>)
      ensures r.Err? <==> Load(stored).Err?
      ensures r.Ok? ==> fresh(r.value) && r.value.State() == Load(stored).value && r.value.Synced()
    {
      match Load(stored)
      case Err(e) => r := Err(e);
      case Ok(s) =>
        var status := new TodosStatus(s);
        r := Ok(status);
    }

    /** The persistence effect: both entries are overwritten with the current state. */
    method Persist()
      modifies this
      ensures Synced() && State() == old(State())
    {
      saved := Snapshot(State());
    }

    /** `addTodo`: the counter goes up by one, the new record gets exactly that id and is
        prepended, then storage is written. */
    method AddTodo(content: string, regDate: string) returns (id: nat)
      modifies this
      ensures id == old(lastTodoId) + 1 && lastTodoId == id
      ensures State() == Step(old(State()), Add(content, regDate))
      ensures Synced()
      ensures old(WellFormed(State())) ==> WellFormed(State()) && !HasId(old(todos), id)
    {
      ghost var before := State();
      lastTodoId := lastTodoId + 1;
      id := lastTodoId;
      todos := [Todo(id, content, regDate, false)] + todos;
      Persist();
      if WellFormed(before) {
        StepPreservesWellFormed(before, Add(content, regDate));
        AddAssignsFreshId(before, content, regDate);
      }
    }

    /** `removeTodo`: the records with that id are filtered out; the counter is untouched. */
    method RemoveTodo(id: nat)
      modifies this
      ensures todos == RemoveById(old(todos), id) && lastTodoId == old(lastTodoId)
      ensures State() == Step(old(State()), Remove(id))
      ensures Synced()
      ensures old(WellFormed(State())) ==> WellFormed(State())
    {
      ghost var before := State();
      todos := RemoveById(todos, id);
      Persist();
      if WellFormed(before) {
        StepPreservesWellFormed(before, Remove(id));
      }
    }

    /** `toggleComplete`: the matching record's flag is negated. */
    method ToggleComplete(id: nat)
      modifies this
      ensures todos == ToggleById(old(todos), id) && lastTodoId == old(lastTodoId)
      ensures State() == Step(old(State()), Toggle(id))
      ensures Synced()
      ensures old(WellFormed(State())) ==> WellFormed(State())
    {
      ghost var before := State();
      todos := ToggleById(todos, id);
      Persist();
      if WellFormed(before) {
        StepPreservesWellFormed(before, Toggle(id));
      }
    }

    /** `editTodo`: the matching record's content is replaced. */
    method EditTodo(id: nat, content: string)
      modifies this
      ensures todos == EditById(old(todos), id, content) && lastTodoId == old(lastTodoId)
      ensures State() == Step(old(State()), Edit(id, content))
      ensures Synced()
      ensures old(WellFormed(State())) ==> WellFormed(State())
    {
      ghost var before := State();
      todos := EditById(todos, id, content);
      Persist();
      if WellFormed(before) {
        StepPreservesWellFormed(before, Edit(id, content));
      }
    }
  }
}
