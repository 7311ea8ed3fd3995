/** The list view: its simple inline form, the completed-count badge and the
    add / edit flow around the form. */
module TodoList {
  import opened TodoTypes
  import opened Text
  import Ordering
  import TodoService
  import TodoForm
  import App

  /** The inline form's fields. */
  datatype SimpleForm = SimpleForm(title: string, description: string, priority: Priority)

  const EmptySimpleForm := SimpleForm("", "", Medium)

  /** The inline form's initial fields: supplied values, otherwise empty text
      and medium priority. */
  function SimpleInit(init: Option<TodoForm.InitialData>): (s: SimpleForm)
    ensures init.None? ==> s == EmptySimpleForm
    ensures init.Some? && init.value.title.Some? ==> s.title == init.value.title.value
    ensures init.Some? && init.value.title.None? ==> s.title == ""
    ensures init.Some? && init.value.description.Some? ==> s.description == init.value.description.value
    ensures init.Some? && init.value.description.None? ==> s.description == ""
    ensures init.Some? && init.value.priority.Some? ==> s.priority == init.value.priority.value
    ensures init.Some? && init.value.priority.None? ==> s.priority == Medium
  {
    match init
    case None => EmptySimpleForm
    case Some(d) => SimpleForm(d.title.GetOr(""), d.description.GetOr(""), d.priority.GetOr(Medium))
  }

  /** The inline form and the modal form open with the same title, description
      and priority for the same initial data. */
  lemma SimpleInitAgreesWithFormInit(init: Option<TodoForm.InitialData>)
    ensures var s := SimpleInit(init);
      var d := TodoForm.Init(init).data;
      s.title == d.title && Some(s.description) == d.description && s.priority == d.priority
  {
  }

  datatype SimpleSubmitResult = SimpleSubmitResult(form: SimpleForm, sent: Option<FormData>)

  /** `SimpleTodoForm.handleSubmit`: a blank title sends nothing. Otherwise the
      trimmed title, the trimmed description (absent when it trims to
      nothing), the priority and no due date are sent; once the `onSubmit`
      promise resolves in add mode the fields are reset. A rejection skips
      the reset. */
  function SimpleSubmit(s: SimpleForm, addMode: bool, resolved: bool): (r: SimpleSubmitResult)
    ensures r.sent.Some? <==> !IsBlank(s.title)
    ensures r.sent.Some? ==>
      && r.sent.value.title == Trim(s.title)
      && r.sent.value.title != ""
      && r.sent.value.priority == s.priority
      && r.sent.value.dueDate.None?
      && (r.sent.value.description.None? <==> IsBlank(s.description))
      && (r.sent.value.description.Some? ==> r.sent.value.description.value == Trim(s.description))
    ensures r.form == (if r.sent.Some? && resolved && addMode then EmptySimpleForm else s)
  {
    if IsBlank(s.title) then SimpleSubmitResult(s, None)
    else
      var description := if Trim(s.description) == "" then None else Some(Trim(s.description));
      var data := FormData(Trim(s.title), description, s.priority, None);
      SimpleSubmitResult(if resolved && addMode then EmptySimpleForm else s, Some(data))
  }

  /** What the inline form sends is already normalised: its title and
      description come back unchanged from another trim. */
  lemma SimpleSubmitNormalised(s: SimpleForm, addMode: bool, resolved: bool)
    requires !IsBlank(s.title)
    ensures var d := SimpleSubmit(s, addMode, resolved).sent.value;
      && Trim(d.title) == d.title
      && (d.description.Some? ==> Trim(d.description.value) == d.description.value)
  {
    TrimIdempotent(s.title);
    TrimIdempotent(s.description);
  }

  /** `completedCount`: the number of tasks whose flag is set. */
  function CompletedCount(todos: seq<Todo>): (n: nat)
    ensures n == |set i | 0 <= i < |todos| && todos[i].completed|
    ensures n <= |todos|
  {
    var done := (t: Todo) => t.completed;
    Ordering.KeepSize(todos, done);
    assert Ordering.Positions(todos, done) == set i | 0 <= i < |todos| && todos[i].completed;
    |Ordering.Keep(todos, done)|
  }

  /** The badge counts flags while the board's header counts stages; the two
      agree whenever every task is consistent. */
  lemma CompletedCountMatchesStats(todos: seq<Todo>)
    requires forall i :: 0 <= i < |todos| ==> Consistent(todos[i])
    ensures CompletedCount(todos) == App.ComputeStats(todos).completed
  {
    Ordering.KeepCongruent(todos, (t: Todo) => t.completed, (t: Todo) => t.status == Completed);
  }

  /** After a checkbox toggle the two counts can differ. */
  lemma CompletedCountCanDiffer()
    ensures var t := Todo("a", "t", "", true, InProgress, Medium, 0, 0, None);
      CompletedCount([t]) == 1 && App.ComputeStats([t]).completed == 0
  {
    var t := Todo("a", "t", "", true, InProgress, Medium, 0, 0, None);
    assert Ordering.Keep([t], (t: Todo) => t.completed) == [t];
    assert App.ComputeStats([t]).completed == App.CountStatus([t], Completed);
    assert Ordering.Keep([t], (t: Todo) => t.status == Completed) == [];
  }

  // ---------------------------------------------------------------- the list's own edit flow

  datatype ListState = ListState(showForm: bool, editing: Option<Todo>)

  datatype EditResult = EditResult(state: ListState, call: Option<App.UpdateCall>)

  /** `handleEditTodo`: with no task being edited nothing happens; otherwise
      the form fields are sent for that task and a success ends the edit. */
  function HandleEditSubmit(st: ListState, data: FormData, succeeded: bool): (r: EditResult)
    ensures st.editing.None? ==> r == EditResult(st, None)
    ensures st.editing.Some? ==> r.call == Some(App.UpdateCall(st.editing.value.id, TodoService.FormPatch(data)))
    ensures st.editing.Some? ==> r.state.showForm == st.showForm
    ensures st.editing.Some? ==> (r.state.editing.None? <==> succeeded)
    ensures st.editing.Some? && !succeeded ==> r.state == st
  {
    match st.editing
    case None => EditResult(st, None)
    case Some(t) =>
      EditResult(if succeeded then st.(editing := None) else st,
                 Some(App.UpdateCall(t.id, TodoService.FormPatch(data))))
  }

  /** The list's state after a handler, and whether the promise the handler
      returns to the form resolves. */
  datatype AddOutcome = AddOutcome(state: ListState, resolved: bool)

  /** `handleAddTodo`: a successful add hides the form, a failed one leaves it
      shown. The failure is logged and swallowed, so the promise handed back
      to the form resolves either way. */
  function HandleAddSubmit(st: ListState, succeeded: bool): (r: AddOutcome)
    ensures r.state.editing == st.editing
    ensures r.state.showForm <==> st.showForm && !succeeded
    ensures r.resolved
  {
    AddOutcome(if succeeded then st.(showForm := false) else st, true)
  }

  /** An add as the inline form and the list's handler carry it out together:
      the form submits, the handler settles, the form sees the handler's
      promise. */
  datatype AddStep = AddStep(state: ListState, form: SimpleForm, sent: Option<FormData>)

  function AddThroughForm(st: ListState, form: SimpleForm, succeeded: bool): (r: AddStep)
    ensures r.sent == SimpleSubmit(form, true, true).sent
  {
    var o := HandleAddSubmit(st, succeeded);
    var f := SimpleSubmit(form, true, o.resolved);
    if f.sent.None? then AddStep(st, f.form, None) else AddStep(o.state, f.form, f.sent)
  }

  /** As written, a failed add leaves the inline form shown but emptied: what
      the user typed is lost although nothing was stored. */
  lemma FailedAddEmptiesShownForm(st: ListState, form: SimpleForm)
    requires st.showForm && !IsBlank(form.title)
    ensures var r := AddThroughForm(st, form, false);
      && r.sent.Some? && r.state.showForm
      && r.form == EmptySimpleForm && r.form != form
  {
  }

  /** The handler as its form expects it: the failure is passed on, so the
      promise rejects exactly when the add failed. */
  function HandleAddSubmitRethrowing(st: ListState, succeeded: bool): (r: AddOutcome)
    ensures r.state == HandleAddSubmit(st, succeeded).state
    ensures r.resolved <==> succeeded
  {
    AddOutcome(HandleAddSubmit(st, succeeded).state, succeeded)
  }

  /** With the rethrowing handler a failed add keeps the form shown with the
      user's input, and a successful one hides it and clears the fields. */
  lemma RethrowingAddKeepsInput(st: ListState, form: SimpleForm, succeeded: bool)
    requires st.showForm && !IsBlank(form.title)
    ensures var o := HandleAddSubmitRethrowing(st, succeeded);
      var f := SimpleSubmit(form, true, o.resolved);
      && f.sent.Some?
      && (o.state.showForm <==> !succeeded)
      && (f.form == form <==> !succeeded || form == EmptySimpleForm)
      && (succeeded ==> f.form == EmptySimpleForm)
  {
  }

  /** Editing from the list: a successful submit ends the edit and sends the
      form fields to the task being edited; a failed one keeps editing it. */
  lemma ListEditRoundTrip(st: ListState, t: Todo, data: FormData)
    ensures var r := HandleEditSubmit(st.(editing := Some(t)), data, true);
      r.state == st.(editing := None) && r.call.value.id == t.id
    ensures var r := HandleEditSubmit(st.(editing := Some(t)), data, false);
      r.state.editing == Some(t) && r.call.value.id == t.id
  {
  }
}
