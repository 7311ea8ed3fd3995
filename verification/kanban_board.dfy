/** The board: three columns, one per stage, and the drag controller that turns
    a drop on a column into at most one stage update. The pointer sensor is
    abstracted into a stream of start and drop events. */
module KanbanBoard {
  import opened TodoTypes
  import Ordering
  import TodoService

  /** The board's columns, left to right. */
  const Columns: seq<Status> := [ToDo, InProgress, Completed]

  /** There are exactly three columns, one for each stage, each once. */
  lemma ColumnsAreTheStages(s: Status)
    ensures |Columns| == 3 && s in Columns
    ensures forall i, j :: 0 <= i < j < |Columns| ==> Columns[i] != Columns[j]
  {
  }

  /** `getTodosByStatus`: the tasks in one stage, in board order. */
  function ColumnTodos(todos: seq<Todo>, s: Status): (r: seq<Todo>)
    ensures forall i :: 0 <= i < |r| ==> r[i].status == s
    ensures forall t :: multiset(r)[t] == if t.status == s then multiset(todos)[t] else 0
  {
    Ordering.KeepCount(todos, (t: Todo) => t.status == s);
    Ordering.Keep(todos, (t: Todo) => t.status == s)
  }

  /** Every task lands in exactly one column: the three columns together hold
      the board's tasks, each as often as the board does. */
  lemma ColumnsPartition(todos: seq<Todo>)
    ensures multiset(ColumnTodos(todos, ToDo)) + multiset(ColumnTodos(todos, InProgress))
      + multiset(ColumnTodos(todos, Completed)) == multiset(todos)
    ensures |ColumnTodos(todos, ToDo)| + |ColumnTodos(todos, InProgress)|
      + |ColumnTodos(todos, Completed)| == |todos|
  {
    var m := multiset(ColumnTodos(todos, ToDo)) + multiset(ColumnTodos(todos, InProgress))
      + multiset(ColumnTodos(todos, Completed));
    assert forall t :: m[t] == multiset(todos)[t];
    assert m == multiset(todos);
  }

  /** Columns keep the board's order: the column of a concatenation is the
      concatenation of the columns. */
  lemma ColumnKeepsOrder(a: seq<Todo>, b: seq<Todo>, s: Status)
    ensures ColumnTodos(a + b, s) == ColumnTodos(a, s) + ColumnTodos(b, s)
  {
    Ordering.KeepAppend(a, b, (t: Todo) => t.status == s);
  }

  /** Index `i` holds the first task with identifier `id`. */
  predicate FirstWithId(todos: seq<Todo>, i: int, id: Id) {
    0 <= i < |todos| && todos[i].id == id && forall k :: 0 <= k < i ==> todos[k].id != id
  }

  /** `todos.find(t => t.id === id)`: the first task with the identifier. */
  function Find(todos: seq<Todo>, id: Id): (r: Option<Todo>)
    ensures r.None? <==> forall i :: 0 <= i < |todos| ==> todos[i].id != id
    ensures r.Some? ==> exists i :: FirstWithId(todos, i, id) && todos[i] == r.value
  {
    if |todos| == 0 then None
    else if todos[0].id == id then
      assert FirstWithId(todos, 0, id);
      Some(todos[0])
    else
      var r := Find(todos[1..], id);
      assert r.Some? ==> exists i :: FirstWithId(todos, i, id) && todos[i] == r.value by {
        if r.Some? {
          var i :| FirstWithId(todos[1..], i, id) && todos[1..][i] == r.value;
          forall k | 0 < k < i + 1 ensures todos[k].id != id {
            assert todos[k] == todos[1..][k - 1];
          }
          assert FirstWithId(todos, i + 1, id);
        }
      }
      r
  }

  /** Transient drag-session state: no drag, or the dragged identifier and the
      task found for it, if any. */
  datatype DragState = Idle | Dragging(activeId: Id, dragged: Option<Todo>)

  /** `handleDragStart`: records the identifier and the task carrying it, or
      no task when the identifier is not on the board. */
  function DragStart(todos: seq<Todo>, id: Id): (r: DragState)
    ensures r.Dragging? && r.activeId == id
    ensures r.dragged.Some? ==> r.dragged.value in todos && r.dragged.value.id == id
    ensures r.dragged.None? <==> forall i :: 0 <= i < |todos| ==> todos[i].id != id
  {
    Dragging(id, Find(todos, id))
  }

  /** The one remote call a drop can issue: `updateTodoStatus(id, status)`. */
  datatype StatusUpdate = StatusUpdate(id: Id, status: Status)

  datatype DropResult = DropResult(state: DragState, update: Option<StatusUpdate>)

  /** `handleDragEnd`: a drop outside every column, a drop on the task's own
      column or a drop of an identifier not on the board issues nothing; a
      drop on another column issues exactly one stage update. Either way the
      session ends, whatever the update's outcome. The recorded session is
      not consulted: the dropped identifier comes from the event. */
  function DragEnd(state: DragState, todos: seq<Todo>, id: Id, over: Option<Status>): (r: DropResult)
    ensures r.state == Idle
    ensures over.None? ==> r.update.None?
    ensures r.update.Some? <==>
      over.Some? && Find(todos, id).Some? && Find(todos, id).value.status != over.value
    ensures r.update.Some? ==> r.update.value == StatusUpdate(id, over.value)
  {
    match over
    case None => DropResult(Idle, None)
    case Some(target) =>
      match Find(todos, id)
      case Some(t) =>
        if t.status != target then DropResult(Idle, Some(StatusUpdate(id, target)))
        else DropResult(Idle, None)
      case None => DropResult(Idle, None)
  }

  /** Dropping a task on the column of its current stage issues nothing. */
  lemma DropOnOwnColumnIsNoOp(state: DragState, todos: seq<Todo>, i: int)
    requires 0 <= i < |todos|
    requires forall k :: 0 <= k < i ==> todos[k].id != todos[i].id
    ensures DragEnd(state, todos, todos[i].id, Some(todos[i].status)).update.None?
  {
    assert Find(todos, todos[i].id) == Some(todos[i]) by {
      var r := Find(todos, todos[i].id);
      var j :| FirstWithId(todos, j, todos[i].id) && todos[j] == r.value;
      assert !(j < i) && !(i < j);
    }
  }

  /** The decision on a drop does not depend on the recorded session: a drop
      whose identifier differs from the dragged one is acted on all the same. */
  lemma DropIgnoresSession(s1: DragState, s2: DragState, todos: seq<Todo>, id: Id, over: Option<Status>)
    ensures DragEnd(s1, todos, id, over) == DragEnd(s2, todos, id, over)
  {
  }

  /** An issued update, once accepted by the store, moves the stored task to
      the target stage and keeps every stored task consistent. */
  lemma DropUpdateKeepsStoreConsistent(
    store: TodoService.Store, state: DragState, todos: seq<Todo>, id: Id, over: Option<Status>,
    now: Time)
    requires TodoService.StoreConsistent(store)
    requires id in store
    ensures var d := DragEnd(state, todos, id, over);
      d.update.Some? ==>
        var r := TodoService.UpdateStatus(store, d.update.value.id, d.update.value.status, now, true);
        && r.Ok?
        && TodoService.StoreConsistent(r.value)
        && TodoService.ReadStatus(r.value[id]) == over.value
        && r.value[id].title == store[id].title
        && r.value[id].description == store[id].description
        && r.value[id].priority == store[id].priority
        && r.value[id].createdAt == store[id].createdAt
        && r.value[id].dueDate == store[id].dueDate
  {
  }

  // ---------------------------------------------------------------- event streams

  datatype DragEvent = Start(id: Id) | Drop(id: Id, over: Option<Status>)

  function Drops(events: seq<DragEvent>): (n: nat)
    ensures n <= |events|
  {
    if |events| == 0 then 0
    else (if events[0].Drop? then 1 else 0) + Drops(events[1..])
  }

  datatype Session = Session(state: DragState, updates: seq<StatusUpdate>)

  /** Feeds a stream of events to the controller, collecting the updates it
      issues. */
  function Run(todos: seq<Todo>, state: DragState, events: seq<DragEvent>): (r: Session)
    ensures |r.updates| <= Drops(events)
    ensures forall k :: 0 <= k < |r.updates| ==>
      Find(todos, r.updates[k].id).Some? && Find(todos, r.updates[k].id).value.status != r.updates[k].status
    ensures |events| > 0 && events[|events| - 1].Drop? ==> r.state == Idle
    decreases |events|
  {
    if |events| == 0 then Session(state, [])
    else
      match events[0]
      case Start(id) => Run(todos, DragStart(todos, id), events[1..])
      case Drop(id, over) =>
        var d := DragEnd(state, todos, id, over);
        var rest := Run(todos, d.state, events[1..]);
        var issued := if d.update.Some? then [d.update.value] else [];
        Session(rest.state, issued + rest.updates)
  }
}
