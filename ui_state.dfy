/** The three transient UI state machines of the page: the option drawer (which todo
    it shows), the edit modal (open or closed) and the notice snackbar (the message
    banner and its attributes). None of them is persisted. */
module UiState {
  import opened Optional

  /** `useTodoOptionDrawerStatus`: the only state is the selected id; whether the drawer
      is open is derived from it, so the two can never disagree. */
  class TodoOptionDrawerStatus {
    var todoId: Option<nat>

    /** `todoId !== null`. */
    function Opened(): bool
      reads this
    {
      todoId.Some?
    }

    constructor ()
      ensures todoId == None && !Opened()
    {
      todoId := None;
    }

    /** `open(id)`: the drawer shows `id`. */
    method Open(id: nat)
      modifies this
      ensures todoId == Some(id) && Opened()
    {
      todoId := Some(id);
    }

    /** `close()`: the selection is cleared, so no stale id survives. */
    method Close()
      modifies this
      ensures todoId == None && !Opened()
    {
      todoId := None;
    }
  }

  /** `useEditTodoModalStatus`: one visibility flag (`opened` in the hook). */
  class EditTodoModalStatus {
    var isOpen: bool

    constructor ()
      ensures !isOpen
    {
      isOpen := false;
    }

    method Open()
      modifies this
      ensures isOpen
    {
      isOpen := true;
    }

    method Close()
      modifies this
      ensures !isOpen
    {
      isOpen := false;
    }
  }

  /** The alert severities the snackbar can show. */
  datatype Severity = Success | Info | Warning | Error

  /** The alert's visual variants. */
  datatype Variant = Filled | Outlined | Standard

  /** The default auto-hide duration of a notice, in milliseconds. */
  const DEFAULT_AUTO_HIDE_DURATION: nat := 3000

  /** `useNoticeSnackbarStatus`: a visibility flag (`opened` in the hook) and the attributes of the last notice.
      Every attribute starts as `null`. */
  class NoticeSnackbarStatus {
    var isOpen: bool
    var autoHideDuration: Option<nat>
    var variant: Option<Variant>
    var severity: Option<Severity>
    var msg: Option<string>

    constructor ()
      ensures !isOpen && autoHideDuration == None && variant == None && severity == None && msg == None
    {
      isOpen := false;
      autoHideDuration, variant, severity, msg := None, None, None, None;
    }

    /** `open(msg, severity = 'success', autoHideDuration = 3000, variant = 'filled')`:
        shows the notice and overwrites all four attributes, so of two notices opened
        one after the other only the second remains. */
    method Open(message: string, sev: Severity := Success,
                duration: nat := DEFAULT_AUTO_HIDE_DURATION, look: Variant := Filled)
      modifies this
      ensures isOpen
      ensures msg == Some(message) && severity == Some(sev)
      ensures autoHideDuration == Some(duration) && variant == Some(look)
    {
      isOpen := true;
      msg := Some(message);
      severity := Some(sev);
      autoHideDuration := Some(duration);
      variant := Some(look);
    }

    /** `close()`: hides the notice and keeps its attributes. */
    method Close()
      modifies this
      ensures !isOpen
      ensures msg == old(msg) && severity == old(severity)
      ensures autoHideDuration == old(autoHideDuration) && variant == old(variant)
    {
      isOpen := false;
    }
  }

  /** A success notice replaced by an error notice inside its display window: one notice
      is visible, the error one, and closing it hides it without erasing it. */
  method LastNoticeWins(n: NoticeSnackbarStatus)
    modifies n
    ensures !n.isOpen && n.msg == Some("Error!") && n.severity == Some(Error)
    ensures n.autoHideDuration == Some(100) && n.variant == Some(Filled)
  {
    n.Open("Saved!", Success, 100);
    n.Open("Error!", Error, 100);
    assert n.isOpen && n.msg == Some("Error!");
    n.Close();
  }
}
