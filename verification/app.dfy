/** The application shell: header statistics over the unfiltered cache, the
    board fed with the filtered view, and the add / edit modal. */
module App {
  import opened TodoTypes
  import Ordering
  import TodoService
  import UseTodos
  import KanbanBoard
  import TodoForm

  datatype Stats = Stats(total: nat, todo: nat, inProgress: nat, completed: nat)

  function CountStatus(todos: seq<Todo>, s: Status): nat {
    |Ordering.Keep(todos, (t: Todo) => t.status == s)|
  }

  /** `stats`: the list length and the number of tasks in each stage. Since
      the stage is three-valued, the three counts add up to the total. */
  function ComputeStats(todos: seq<Todo>): (s: Stats)
    ensures s.total == |todos|
    ensures s.todo + s.inProgress + s.completed == s.total
    ensures s.todo == |KanbanBoard.ColumnTodos(todos, ToDo)|
    ensures s.inProgress == |KanbanBoard.ColumnTodos(todos, InProgress)|
    ensures s.completed == |KanbanBoard.ColumnTodos(todos, Completed)|
  {
    KanbanBoard.ColumnsPartition(todos);
    Stats(|todos|, CountStatus(todos, ToDo), CountStatus(todos, InProgress), CountStatus(todos, Completed))
  }

  /** The header counts the whole cache while the board shows the filtered
      view: the board never holds more tasks than the header's total, and
      with both filters at "all" it holds exactly as many. */
  lemma BoardWithinStats(h: UseTodos.HookState)
    ensures var board := UseTodos.FilteredTodos(h);
      && |board| <= ComputeStats(h.todos).total
      && (h.filter.status == AllStatuses && h.filter.priority == AllPriorities ==>
            |board| == ComputeStats(h.todos).total)
  {
    var board := UseTodos.FilteredTodos(h);
    var m := multiset(board);
    assert m <= multiset(h.todos) by {
      assert forall t :: m[t] <= multiset(h.todos)[t];
    }
    if h.filter.status == AllStatuses && h.filter.priority == AllPriorities {
      UseTodos.ViewAllIsPermutation(h.todos, h.filter);
    }
  }

  // ---------------------------------------------------------------- the modal

  datatype Modal = Modal(isFormOpen: bool, editing: Option<Todo>)

  const Closed := Modal(false, None)

  /** `handleOpenForm`. */
  function OpenForm(m: Modal): (r: Modal)
    ensures r.isFormOpen && r.editing == m.editing
  {
    m.(isFormOpen := true)
  }

  /** `handleEditTodo`: remembers the task and opens the form. */
  function StartEdit(m: Modal, t: Todo): (r: Modal)
    ensures r.isFormOpen && r.editing == Some(t)
  {
    Modal(true, Some(t))
  }

  /** `handleCloseForm`: closes the form and forgets the edited task. */
  function CloseForm(m: Modal): (r: Modal)
    ensures !r.isFormOpen && r.editing.None?
  {
    Closed
  }

  /** The form's own add-mode test, `!initialData`, applied to what the page
      hands it. It holds exactly when the page routes the submit to
      `handleAddTodo` rather than `handleUpdateTodo`, that is, when no task is
      being edited. */
  function FormAddMode(m: Modal): (addMode: bool)
    ensures addMode <==> m.editing.None?
  {
    FormInitialData(m).None?
  }

  /** The `initialData` the page hands the form: the edited task's fields, or
      nothing when no task is being edited. */
  function FormInitialData(m: Modal): (d: Option<TodoForm.InitialData>)
    ensures d.None? <==> m.editing.None?
    ensures m.editing.Some? ==> var t := m.editing.value;
      TodoForm.Init(d).data == FormData(t.title, Some(t.description), t.priority, t.dueDate)
  {
    match m.editing
    case None => None
    case Some(t) => Some(EditInitialData(t))
  }

  /** The values an edit form opens with: the edited task's own fields. */
  function EditInitialData(t: Todo): (d: TodoForm.InitialData)
    ensures TodoForm.Init(Some(d)).data == FormData(t.title, Some(t.description), t.priority, t.dueDate)
  {
    TodoForm.InitialData(Some(t.title), Some(t.description), Some(t.priority), t.dueDate)
  }

  /** The modal after a handler, and whether the promise the handler returns
      to the form resolves. */
  datatype AddOutcome = AddOutcome(modal: Modal, resolved: bool)

  /** `handleAddTodo` after the add settles: success closes the form, failure
      leaves it open. The failure is logged and swallowed, so the promise
      handed back to the form resolves either way. */
  function AddSettled(m: Modal, succeeded: bool): (r: AddOutcome)
    ensures r.modal.editing == m.editing
    ensures r.modal.isFormOpen <==> m.isFormOpen && !succeeded
    ensures r.resolved
  {
    AddOutcome(if succeeded then m.(isFormOpen := false) else m, true)
  }

  /** An add as the modal form and the page's handler carry it out together:
      the form submits, the handler settles, the form sees the handler's
      promise. */
  datatype AddStep = AddStep(modal: Modal, form: TodoForm.FormState, sent: Option<FormData>)

  function AddThroughForm(m: Modal, form: TodoForm.FormState, now: Time, succeeded: bool): (r: AddStep)
    ensures r.sent == TodoForm.Submit(form, true, now, true).sent
  {
    var o := AddSettled(m, succeeded);
    var f := TodoForm.Submit(form, FormAddMode(m), now, o.resolved);
    if f.sent.None? then AddStep(m, f.form, None) else AddStep(o.modal, f.form, f.sent)
  }

  /** As written, a failed add leaves the modal open over an emptied form: what
      the user typed is lost although nothing was stored. */
  lemma FailedAddEmptiesOpenForm(m: Modal, form: TodoForm.FormState, now: Time)
    requires m.isFormOpen && FormAddMode(m) && TodoForm.IsValid(form.data, now)
    ensures var r := AddThroughForm(m, form, now, false);
      && r.sent == Some(form.data) && r.modal.isFormOpen
      && r.form.data == TodoForm.Init(None).data && r.form.data != form.data
  {
  }

  /** The handler as the form expects it: the failure is passed on, so the
      promise rejects exactly when the add failed. */
  function AddSettledRethrowing(m: Modal, succeeded: bool): (r: AddOutcome)
    ensures r.modal == AddSettled(m, succeeded).modal
    ensures r.resolved <==> succeeded
  {
    AddOutcome(AddSettled(m, succeeded).modal, succeeded)
  }

  /** With the rethrowing handler a failed add keeps the modal open with the
      user's input, and a successful one closes it and resets the form. */
  lemma RethrowingAddKeepsInput(m: Modal, form: TodoForm.FormState, now: Time, succeeded: bool)
    requires m.isFormOpen && FormAddMode(m) && TodoForm.IsValid(form.data, now)
    ensures var o := AddSettledRethrowing(m, succeeded);
      var f := TodoForm.Submit(form, FormAddMode(m), now, o.resolved);
      && f.sent == Some(form.data)
      && (o.modal.isFormOpen <==> !succeeded)
      && (!succeeded ==> f.form.data == form.data)
      && (succeeded ==> f.form.data == TodoForm.Init(None).data)
  {
  }

  /** The modal's life cycle: closing always returns to add mode, opening after
      a close offers an empty add form, an edit that succeeds closes the modal
      after sending the form to the edited task, and an add never leaves add
      mode. */
  lemma ModalLifecycle(m: Modal, t: Todo, data: FormData, succeeded: bool)
    ensures FormAddMode(CloseForm(m)) && !CloseForm(m).isFormOpen
    ensures OpenForm(CloseForm(m)).isFormOpen && FormAddMode(OpenForm(CloseForm(m)))
    ensures !FormAddMode(StartEdit(m, t))
    ensures HandleUpdate(StartEdit(m, t), data, true)
      == UpdateResult(Closed, Some(UpdateCall(t.id, TodoService.FormPatch(data))))
    ensures FormAddMode(m) ==> FormAddMode(AddSettled(m, succeeded).modal)
  {
  }

  /** The update `handleUpdateTodo` sends: the edited task's id and the form fields. */
  datatype UpdateCall = UpdateCall(id: Id, patch: TodoService.Patch)

  datatype UpdateResult = UpdateResult(modal: Modal, call: Option<UpdateCall>)

  /** `handleUpdateTodo`: with no edited task nothing happens; otherwise the
      form fields are sent for the edited task, and success closes the modal
      while failure leaves it as it was. */
  function HandleUpdate(m: Modal, data: FormData, succeeded: bool): (r: UpdateResult)
    ensures m.editing.None? ==> r.modal == m && r.call.None?
    ensures m.editing.Some? ==> r.call.Some? && r.call.value.id == m.editing.value.id
    ensures r.call.Some? ==> r.call.value.patch.status.None? && r.call.value.patch.completed.None?
    ensures r.call.Some? ==> r.call.value.patch == TodoService.FormPatch(data)
    ensures m.editing.Some? && succeeded ==> r.modal == Closed
    ensures m.editing.Some? && !succeeded ==> r.modal == m
  {
    match m.editing
    case None => UpdateResult(m, None)
    case Some(t) =>
      var call := UpdateCall(t.id, TodoService.FormPatch(data));
      UpdateResult(if succeeded then Closed else m, Some(call))
  }

  /** An edit forwards only form fields, so the stored stage, flag and
      creation time of the edited task are untouched and a consistent task
      stays consistent. */
  lemma EditKeepsStage(store: TodoService.Store, m: Modal, data: FormData, now: Time)
    requires m.editing.Some? && m.editing.value.id in store
    ensures var call := HandleUpdate(m, data, true).call.value;
      var r := TodoService.Update(store, call.id, call.patch, now, true);
      var before := store[call.id];
      && r.Ok?
      && r.value[call.id].status == before.status
      && r.value[call.id].completed == before.completed
      && r.value[call.id].createdAt == before.createdAt
      && (TodoService.DocConsistent(before) ==> TodoService.DocConsistent(r.value[call.id]))
  {
  }

  /** Re-submitting an untouched edit of an overdue task is refused: the form
      insists on a due date no earlier than the time of submission. */
  lemma EditOfOverdueTaskBlocked(t: Todo, now: Time)
    requires t.dueDate.Some? && t.dueDate.value < now
    ensures var form := TodoForm.Init(Some(EditInitialData(t)));
      TodoForm.Submit(form, FormAddMode(StartEdit(Closed, t)), now, true).sent.None?
  {
  }
}
