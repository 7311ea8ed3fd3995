/** A list item: its overdue badge, the confirmed delete and the checkbox. */
module TodoItem {
  import opened TodoTypes
  import TodoService
  import TodoCard

  /** The item's overdue test reads the flag: a due date in the past on a
      task whose flag is not set. */
  function IsOverdue(t: Todo, now: Time): (r: bool)
    ensures t.completed ==> !r
    ensures t.dueDate.None? ==> !r
    ensures t.dueDate.Some? && !t.completed ==> (r <==> t.dueDate.value < now)
  {
    t.dueDate.Some? && t.dueDate.value < now && !t.completed
  }

  /** On a consistent task the item and the card agree on being overdue. */
  lemma OverdueAgreesWithCard(t: Todo, now: Time)
    requires Consistent(t)
    ensures IsOverdue(t, now) <==> TodoCard.IsOverdue(t, now)
  {
  }

  /** On a task whose flag and stage disagree the two views can disagree. */
  lemma OverdueCanDisagree()
    ensures var t := Todo("a", "t", "", true, InProgress, Medium, 0, 0, Some(5));
      !IsOverdue(t, 10) && TodoCard.IsOverdue(t, 10)
  {
  }

  /** What `handleDelete` does: the delete it requests, the busy flag while it
      waits, and the busy flag afterwards. */
  datatype DeleteFlow = DeleteFlow(call: Option<Id>, busyWhileWaiting: bool, busyAfter: bool)

  /** `handleDelete`: without confirmation nothing happens; with it the task's
      delete is requested, the item is busy while waiting and is no longer
      busy afterwards, whether the delete succeeded or failed. */
  function HandleDelete(t: Todo, confirmed: bool, busy: bool): (r: DeleteFlow)
    ensures r.call.Some? <==> confirmed
    ensures r.call.Some? ==> r.call.value == t.id && r.busyWhileWaiting && !r.busyAfter
    ensures !confirmed ==> r.busyAfter == busy
  {
    if confirmed then DeleteFlow(Some(t.id), true, false) else DeleteFlow(None, busy, busy)
  }

  /** A confirmed delete that the store accepts takes exactly this task out of
      the store and leaves every other task as it was; the item is idle again
      in either case. A declined confirmation sends nothing. */
  lemma ConfirmedDeleteRemovesTask(store: TodoService.Store, t: Todo, busy: bool, accepted: bool)
    ensures var f := HandleDelete(t, true, busy);
      var r := TodoService.Delete(store, f.call.value, accepted);
      && !f.busyAfter
      && (r.Ok? <==> accepted)
      && (r.Ok? ==> t.id !in r.value && r.value == store - {t.id})
    ensures HandleDelete(t, false, busy).call.None?
  {
  }

  /** The checkbox asks for a toggle of this task to the new checked value. */
  function CheckboxChange(t: Todo, checked: bool): (w: TodoService.Write)
    ensures w.ToggleTask? && w.id == t.id && w.completed == checked
  {
    TodoService.ToggleTask(t.id, checked)
  }

  /** Unchecking a stored task in the completed stage leaves it completed in
      stage but not in flag: the checkbox path breaks the invariant. */
  lemma UncheckingCompletedBreaksConsistency(store: TodoService.Store, t: Todo, now: Time)
    requires t.id in store && store[t.id].status == Some(Completed)
    ensures var w := CheckboxChange(t, false);
      var r := TodoService.ToggleComplete(store, w.id, w.completed, now, true);
      r.Ok? && !TodoService.DocConsistent(r.value[t.id])
  {
    TodoService.ToggleConsistentIff(store, t.id, false, now);
  }
}
