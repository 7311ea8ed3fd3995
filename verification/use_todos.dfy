/** The local entity cache and the view derivation: the latest snapshot, the
    loading and error flags, the filter, and the filtered and sorted view
    derived from them. */
module UseTodos {
  import opened TodoTypes
  import Ordering

  /** The filter the view starts with: everything, newest first. */
  const DefaultFilter := Filter(AllStatuses, AllPriorities, ByCreatedAt, Desc)

  predicate StatusMatches(f: StatusFilter, t: Todo) {
    f.AllStatuses? || t.status == f.status
  }

  predicate PriorityMatches(f: PriorityFilter, t: Todo) {
    f.AllPriorities? || t.priority == f.priority
  }

  /** The ordinal of a priority under the priority sort. */
  function PriorityRank(p: Priority): (r: int)
    ensures 1 <= r <= 3
    ensures r == 3 <==> p == High
    ensures r == 1 <==> p == Low
  {
    match p
    case High => 3
    case Medium => 2
    case Low => 1
  }

  /** The number a task is sorted by: its creation time, its priority ordinal,
      or its due date with no due date counting as 0. */
  function SortValue(k: SortKey, t: Todo): int {
    match k
    case ByPriority => PriorityRank(t.priority)
    case ByDueDate => t.dueDate.GetOr(0)
    case ByCreatedAt => t.createdAt
  }

  /** Sorting descending by a key is sorting ascending by its negation. */
  function AscendingKey(f: Filter): Todo -> int {
    if f.sortOrder == Asc then (t: Todo) => SortValue(f.sortBy, t)
    else (t: Todo) => -SortValue(f.sortBy, t)
  }

  predicate Matches(f: Filter, t: Todo) {
    StatusMatches(f.status, t) && PriorityMatches(f.priority, t)
  }

  /** `filteredTodos`: the status filter, then the priority filter, then the
      sort. A task appears exactly as often as in the snapshot when it passes
      both filters and not at all otherwise, and the view runs through the
      sort key in the chosen direction. */
  function View(todos: seq<Todo>, f: Filter): (r: seq<Todo>)
    ensures forall t :: multiset(r)[t] == if Matches(f, t) then multiset(todos)[t] else 0
    ensures f.sortOrder == Asc ==>
      forall i, j :: 0 <= i < j < |r| ==> SortValue(f.sortBy, r[i]) <= SortValue(f.sortBy, r[j])
    ensures f.sortOrder == Desc ==>
      forall i, j :: 0 <= i < j < |r| ==> SortValue(f.sortBy, r[i]) >= SortValue(f.sortBy, r[j])
  {
    var byStatus := Ordering.Keep(todos, (t: Todo) => StatusMatches(f.status, t));
    Ordering.KeepCount(todos, (t: Todo) => StatusMatches(f.status, t));
    var byPriority := Ordering.Keep(byStatus, (t: Todo) => PriorityMatches(f.priority, t));
    Ordering.KeepCount(byStatus, (t: Todo) => PriorityMatches(f.priority, t));
    var r := Ordering.Sort(byPriority, AscendingKey(f));
    SortedInDirection(r, f);
    r
  }

  /** A list ascending by the view's key runs through the sort value in the
      filter's direction. */
  lemma SortedInDirection(r: seq<Todo>, f: Filter)
    requires Ordering.SortedBy(r, AscendingKey(f))
    ensures f.sortOrder == Asc ==>
      forall i, j :: 0 <= i < j < |r| ==> SortValue(f.sortBy, r[i]) <= SortValue(f.sortBy, r[j])
    ensures f.sortOrder == Desc ==>
      forall i, j :: 0 <= i < j < |r| ==> SortValue(f.sortBy, r[i]) >= SortValue(f.sortBy, r[j])
  {
    var key := AscendingKey(f);
    forall i, j | 0 <= i < j < |r|
      ensures f.sortOrder == Asc ==> SortValue(f.sortBy, r[i]) <= SortValue(f.sortBy, r[j])
      ensures f.sortOrder == Desc ==> SortValue(f.sortBy, r[i]) >= SortValue(f.sortBy, r[j])
    {
      assert key(r[i]) <= key(r[j]);
    }
  }

  /** A task is in the view iff it is in the snapshot and passes both filters. */
  lemma ViewMembership(todos: seq<Todo>, f: Filter, t: Todo)
    ensures t in View(todos, f) <==> t in todos && Matches(f, t)
  {
    assert t in View(todos, f) <==> multiset(View(todos, f))[t] > 0;
    assert t in todos <==> multiset(todos)[t] > 0;
  }

  /** With both filters at "all" the view is a reordering of the snapshot. */
  lemma ViewAllIsPermutation(todos: seq<Todo>, f: Filter)
    requires f.status == AllStatuses && f.priority == AllPriorities
    ensures multiset(View(todos, f)) == multiset(todos)
    ensures |View(todos, f)| == |todos|
  {
    assert forall t :: multiset(View(todos, f))[t] == multiset(todos)[t];
  }

  /** Under the descending priority sort, high tasks come before medium ones
      and medium ones before low ones; ascending reverses this. */
  lemma PriorityOrderGroups(todos: seq<Todo>, f: Filter, i: int, j: int)
    requires f.sortBy == ByPriority
    requires 0 <= i < j < |View(todos, f)|
    ensures var r := View(todos, f);
      && (f.sortOrder == Desc ==>
            (r[j].priority == High ==> r[i].priority == High) && (r[i].priority == Low ==> r[j].priority == Low))
      && (f.sortOrder == Asc ==>
            (r[i].priority == High ==> r[j].priority == High) && (r[j].priority == Low ==> r[i].priority == Low))
  {
  }

  // ---------------------------------------------------------------- the hook's state

  /** What the last remote write that failed was. */
  datatype HookError = AddFailed | UpdateFailed | DeleteFailed | ToggleFailed

  datatype HookState = HookState(
    todos: seq<Todo>,
    loading: bool,
    error: Option<HookError>,
    filter: Filter)

  /** The state before the first snapshot: empty, loading, no error, default filter. */
  function Initial(): (h: HookState)
    ensures h.todos == [] && h.loading && h.error.None?
    ensures h.filter.status == AllStatuses && h.filter.priority == AllPriorities
    ensures h.filter.sortBy == ByCreatedAt && h.filter.sortOrder == Desc
  {
    HookState([], true, None, DefaultFilter)
  }

  /** A snapshot replaces the cached list wholesale and ends loading. */
  function ReceiveSnapshot(h: HookState, snap: seq<Todo>): (r: HookState)
    ensures r.todos == snap && !r.loading
    ensures r.filter == h.filter && r.error == h.error
  {
    h.(todos := snap, loading := false)
  }

  /** Only the latest snapshot matters: an earlier one leaves no trace. */
  lemma SnapshotReplacesWholesale(h: HookState, s1: seq<Todo>, s2: seq<Todo>)
    ensures ReceiveSnapshot(ReceiveSnapshot(h, s1), s2) == ReceiveSnapshot(h, s2)
  {
  }

  function FilteredTodos(h: HookState): seq<Todo> {
    View(h.todos, h.filter)
  }

  /** `Partial<TodoFilter>`: each field supplied or not. */
  datatype FilterPatch = FilterPatch(
    status: Option<StatusFilter>,
    priority: Option<PriorityFilter>,
    sortBy: Option<SortKey>,
    sortOrder: Option<SortOrder>)

  /** `setFilter`: supplied fields overwrite, the others are kept. */
  function SetFilter(h: HookState, p: FilterPatch): (r: HookState)
    ensures r.todos == h.todos && r.loading == h.loading && r.error == h.error
    ensures r.filter.status == p.status.GetOr(h.filter.status)
    ensures r.filter.priority == p.priority.GetOr(h.filter.priority)
    ensures r.filter.sortBy == p.sortBy.GetOr(h.filter.sortBy)
    ensures r.filter.sortOrder == p.sortOrder.GetOr(h.filter.sortOrder)
  {
    h.(filter := Filter(
      p.status.GetOr(h.filter.status),
      p.priority.GetOr(h.filter.priority),
      p.sortBy.GetOr(h.filter.sortBy),
      p.sortOrder.GetOr(h.filter.sortOrder)))
  }

  /** Setting the same partial filter twice is setting it once, and an empty
      one changes nothing. */
  lemma SetFilterIdempotent(h: HookState, p: FilterPatch)
    ensures SetFilter(SetFilter(h, p), p) == SetFilter(h, p)
    ensures SetFilter(h, FilterPatch(None, None, None, None)) == h
  {
  }

  /** A write wrapper (`addNewTodo`, `updateExistingTodo`, `removeExistingTodo`,
      `toggleComplete`) after its remote call settles: the error is cleared
      before the call and set if it fails. The cache is never touched: a write
      shows up only through the next snapshot. */
  function WriteSettled(h: HookState, op: HookError, succeeded: bool): (r: HookState)
    ensures r.todos == h.todos && r.loading == h.loading && r.filter == h.filter
    ensures r.error.Some? <==> !succeeded
    ensures r.error.Some? ==> r.error.value == op
  {
    h.(error := if succeeded then None else Some(op))
  }

  /** `clearError`. */
  function ClearError(h: HookState): (r: HookState)
    ensures r.error.None? && r.todos == h.todos && r.filter == h.filter && r.loading == h.loading
  {
    h.(error := None)
  }

  /** The error shown is the outcome of the latest write alone; a successful
      write clears what an earlier one left, and clearing it leaves the hook
      as if the write had never reported anything. */
  lemma LatestWriteDecidesError(h: HookState, a: HookError, x: bool, b: HookError, y: bool)
    ensures WriteSettled(WriteSettled(h, a, x), b, y) == WriteSettled(h, b, y)
    ensures WriteSettled(h, a, true) == ClearError(h)
    ensures ClearError(WriteSettled(h, a, x)) == ClearError(h)
    ensures ClearError(ClearError(h)) == ClearError(h)
    ensures h.error.None? ==> ClearError(h) == h
  {
  }
}
