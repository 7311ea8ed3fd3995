/** The task record model shared by every component: priorities, workflow
    stages, the task entity, the form payload and the list filter. */
module TodoTypes {

  datatype Option<T> = None | Some(value: T) {
    function GetOr(default: T): T {
      match this
      case Some(v) => v
      case None => default
    }
  }

  datatype Priority = High | Medium | Low

  /** The three workflow stages a task can occupy. */
  datatype Status = ToDo | InProgress | Completed

  type Id = string

  /** Milliseconds since the epoch. */
  type Time = int

  /** A task as the user interface sees it, after it has been read from the store.
      `completed` and `status` are independent fields: their agreement is the
      separate invariant `Consistent`. */
  datatype Todo = Todo(
    id: Id,
    title: string,
    description: string,
    completed: bool,
    status: Status,
    priority: Priority,
    createdAt: Time,
    updatedAt: Time,
    dueDate: Option<Time>)

  /** The dual-representation invariant: the flag mirrors the stage. */
  predicate Consistent(t: Todo) {
    t.completed == (t.status == Completed)
  }

  /** What a form submits: no id, stage, flag or timestamps. */
  datatype FormData = FormData(
    title: string,
    description: Option<string>,
    priority: Priority,
    dueDate: Option<Time>)

  datatype StatusFilter = AllStatuses | OnlyStatus(status: Status)
  datatype PriorityFilter = AllPriorities | OnlyPriority(priority: Priority)
  datatype SortKey = ByCreatedAt | ByPriority | ByDueDate
  datatype SortOrder = Asc | Desc

  datatype Filter = Filter(
    status: StatusFilter,
    priority: PriorityFilter,
    sortBy: SortKey,
    sortOrder: SortOrder)

  function PriorityName(p: Priority): string {
    match p
    case High => "high"
    case Medium => "medium"
    case Low => "low"
  }

  function StatusName(s: Status): string {
    match s
    case ToDo => "todo"
    case InProgress => "in-progress"
    case Completed => "completed"
  }

  /** Reads one of the three priority literals; anything else is not a priority. */
  function ParsePriority(s: string): (r: Option<Priority>)
    ensures r.Some? ==> PriorityName(r.value) == s
  {
    if s == "high" then Some(High)
    else if s == "medium" then Some(Medium)
    else if s == "low" then Some(Low)
    else None
  }

  /** Reads one of the three stage literals; anything else is not a stage. */
  function ParseStatus(s: string): (r: Option<Status>)
    ensures r.Some? ==> StatusName(r.value) == s
  {
    if s == "todo" then Some(ToDo)
    else if s == "in-progress" then Some(InProgress)
    else if s == "completed" then Some(Completed)
    else None
  }

  /** Every priority has its own literal, and reading the literal gives it back. */
  lemma PriorityNameRoundTrip(p: Priority, q: Priority)
    ensures ParsePriority(PriorityName(p)) == Some(p)
    ensures PriorityName(p) == PriorityName(q) ==> p == q
  {
  }

  /** Every stage has its own literal, and reading the literal gives it back. */
  lemma StatusNameRoundTrip(s: Status, t: Status)
    ensures ParseStatus(StatusName(s)) == Some(s)
    ensures StatusName(s) == StatusName(t) ==> s == t
  {
  }
}
