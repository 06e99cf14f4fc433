/** The submit and confirm handlers that stand between user input and the store: the
    new-todo form, the inline edit of a list item, the edit modal and the delete action
    of the option drawer. Browser dialogs (`alert`, `confirm`) are reduced to their
    outcome: the input was rejected, or the user answered yes or no. */
module Forms {
  import opened Optional
  import opened Text
  import opened TodoList
  import opened TodoStore
  import opened UiState

  /** Every stored content has something besides whitespace. */
  ghost predicate ContentsFilled(todos: seq<Todo>) {
    forall i :: 0 <= i < |todos| ==> !IsBlank(todos[i].content)
  }

  /** The operations the handlers below let through: adds and edits with non-blank text. */
  predicate Admitted(op: Op) {
    match op
    case Add(content, _) => !IsBlank(content)
    case Edit(_, content) => !IsBlank(content)
    case _ => true
  }

  /** Operations that passed validation never store blank content. */
  lemma AdmittedStepKeepsContentsFilled(s: Store, op: Op)
    requires ContentsFilled(s.todos) && Admitted(op)
    ensures ContentsFilled(Step(s, op).todos)
  {
    match op
    case Remove(id) =>
      var r := RemoveById(s.todos, id);
      forall i | 0 <= i < |r| ensures !IsBlank(r[i].content) {
        RemoveByIdSubset(s.todos, id, r[i]);
      }
    case Add(content, regDate) =>
      var r := Step(s, op).todos;
      forall i | 0 <= i < |r| ensures !IsBlank(r[i].content) {
        if i > 0 { assert r[i] == s.todos[i - 1]; }
      }
    case Toggle(id) =>
      var r := ToggleById(s.todos, id);
      forall i | 0 <= i < |r| ensures !IsBlank(r[i].content) {
        assert r[i].content == s.todos[i].content;
      }
    case Edit(id, content) =>
      var r := EditById(s.todos, id, content);
      forall i | 0 <= i < |r| ensures !IsBlank(r[i].content) {
        assert r[i].content == (if s.todos[i].id == id then content else s.todos[i].content);
      }
  }

  /** The modal's trimmed text is itself admitted whenever the raw input was. */
  lemma TrimmedInputAdmitted(id: nat, input: string)
    requires !IsBlank(input)
    ensures Admitted(Edit(id, Trim(input)))
  {
    TrimIdempotent(input);
  }

  /** `NewTodoForm`: the text field's current value. */
  class NewTodoForm {
    var content: string

    constructor ()
      ensures content == ""
    {
      content := "";
    }

    /** The field's `onChange`: the typed text replaces the field's value. */
    method Type(text: string)
      modifies this
      ensures content == text
    {
      content := text;
    }

    /** `handleSubmit`: blank input never reaches the store and stays in the field;
        otherwise the text as typed (not trimmed) is added and the field is cleared. */
    method HandleSubmit(store: TodosStatus, regDate: string) returns (added: Option<nat>)
      modifies this, store
      ensures added.None? <==> IsBlank(old(content))
      ensures added.None? ==> content == old(content) && unchanged(store)
      ensures added.Some? ==>
        && added.value == old(store.lastTodoId) + 1
        && Admitted(Add(old(content), regDate))
        && store.State() == Step(old(store.State()), Add(old(content), regDate))
        && store.Synced()
        && content == ""
    {
      if IsBlank(content) {
        return None;
      }
      var id := store.AddTodo(content, regDate);
      content := "";
      added := Some(id);
    }
  }

  /** `TodoListItem`: the record it shows, whether its inline editor is open and the
      editor's text, which starts as the record's content. */
  class TodoListItem {
    const todoId: nat
    var isEditing: bool
    var newContent: string

    constructor (todo: Todo)
      ensures todoId == todo.id && !isEditing && newContent == todo.content
    {
      todoId := todo.id;
      isEditing := false;
      newContent := todo.content;
    }

    /** The editor field's `onChange`: the typed text replaces the editor's value. */
    method Type(text: string)
      modifies this
      ensures newContent == text && isEditing == old(isEditing)
    {
      newContent := text;
    }

    /** A click on the text opens the inline editor. */
    method StartEditing()
      modifies this
      ensures isEditing && newContent == old(newContent)
    {
      isEditing := true;
    }

    /** `handleEditSubmit`: blank text changes nothing; otherwise the record's content
        becomes the text as typed and the editor closes. */
    method HandleEditSubmit(store: TodosStatus) returns (accepted: bool)
      modifies this, store
      ensures accepted <==> !IsBlank(old(newContent))
      ensures !accepted ==> unchanged(this) && unchanged(store)
      ensures accepted ==>
        && Admitted(Edit(todoId, old(newContent)))
        && store.State() == Step(old(store.State()), Edit(todoId, old(newContent)))
        && store.Synced()
        && !isEditing && newContent == old(newContent)
    {
      if IsBlank(newContent) {
        return false;
      }
      store.EditTodo(todoId, newContent);
      isEditing := false;
      accepted := true;
    }
  }

  /** `EditTodoModal`'s `onSubmit` for the record `todoId`: the field is trimmed in
      place; if nothing is left the submission is rejected and nothing else changes;
      otherwise the trimmed text becomes the record's content, the modal closes and a
      success notice with `message` is shown. The returned `field` is the field's new
      value. */
  method SubmitEditModal(store: TodosStatus, modal: EditTodoModalStatus, notice: NoticeSnackbarStatus,
                         todoId: nat, input: string, message: string)
      returns (accepted: bool, field: string)
    modifies store, modal, notice
    ensures field == Trim(input)
    ensures accepted <==> !IsBlank(input)
    ensures !accepted ==> unchanged(store) && unchanged(modal) && unchanged(notice)
    ensures accepted ==>
      && Admitted(Edit(todoId, Trim(input)))
      && store.State() == Step(old(store.State()), Edit(todoId, Trim(input)))
      && store.Synced()
      && !modal.isOpen
      && notice.isOpen && notice.msg == Some(message) && notice.severity == Some(Success)
      && notice.autoHideDuration == Some(DEFAULT_AUTO_HIDE_DURATION) && notice.variant == Some(Filled)
  {
    field := Trim(input);
    if |field| == 0 {
      return false, field;
    }
    TrimmedInputAdmitted(todoId, input);
    store.EditTodo(todoId, field);
    modal.Close();
    notice.Open(message);
    accepted := true;
  }

  /** The notice shown after a deletion: "<id>번 todo 삭제됨". */
  function RemovedMessage(id: nat): string {
    DecimalString(id) + "번 todo 삭제됨"
  }

  /** Different ids give different deletion notices. */
  lemma RemovedMessageInjective(a: nat, b: nat)
    requires RemovedMessage(a) == RemovedMessage(b)
    ensures a == b
  {
    var suffix := "번 todo 삭제됨";
    var ma, mb := RemovedMessage(a), RemovedMessage(b);
    assert DecimalString(a) == ma[..|ma| - |suffix|];
    assert DecimalString(b) == mb[..|mb| - |suffix|];
    DecimalRoundTrip(a);
    DecimalRoundTrip(b);
  }

  /** `TodoOptionDrawer`'s `removeTodo`, run from the open drawer: the drawer always
      closes; only when the user confirms is the selected record removed and an error-
      styled notice naming its id shown. */
  method ConfirmRemove(store: TodosStatus, drawer: TodoOptionDrawerStatus, notice: NoticeSnackbarStatus,
                       confirmed: bool)
    requires drawer.Opened()
    modifies store, drawer, notice
    ensures !drawer.Opened()
    ensures !confirmed ==> unchanged(store) && unchanged(notice)
    ensures confirmed ==>
      && store.State() == Step(old(store.State()), Remove(old(drawer.todoId).value))
      && store.Synced()
      && notice.isOpen && notice.msg == Some(RemovedMessage(old(drawer.todoId).value))
      && notice.severity == Some(Error)
      && notice.autoHideDuration == Some(DEFAULT_AUTO_HIDE_DURATION) && notice.variant == Some(Filled)
  {
    var id := drawer.todoId.value;
    if !confirmed {
      drawer.Close();
      return;
    }
    store.RemoveTodo(id);
    drawer.Close();
    notice.Open(RemovedMessage(id), Error);
  }
}
