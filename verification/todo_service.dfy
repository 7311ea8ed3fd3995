/** The remote store adapter: the collection of task documents as a map from
    identifier to raw document, the read-side conversion with its legacy
    migration, the create / update / delete writes and the ordered snapshot the
    subscription delivers. Network outcomes and the server clock are
    parameters. */
module TodoService {
  import opened TodoTypes
  import Ordering

  /** A stored document. Any field may be missing: documents written before the
      `status` field existed lack it, and a `null` due date reads as missing. */
  datatype Doc = Doc(
    title: Option<string>,
    description: Option<string>,
    completed: Option<bool>,
    status: Option<Status>,
    priority: Option<Priority>,
    createdAt: Option<Time>,
    updatedAt: Option<Time>,
    dueDate: Option<Time>)

  type Store = map<Id, Doc>

  datatype Op = CreateOp | UpdateOp | DeleteOp

  /** Why a remote write was refused. Every refusal is rethrown to the caller. */
  datatype RemoteError = Rejected(op: Op) | NotFound(op: Op)

  datatype Outcome<T> = Ok(value: T) | Err(error: RemoteError)

  // ---------------------------------------------------------------- reading

  /** The stage a document reads as: its own `status` when it has one,
      otherwise the legacy rule derives it from `completed`. */
  function ReadStatus(d: Doc): (s: Status)
    ensures d.status.Some? ==> s == d.status.value
    ensures d.status.None? ==> (s == Completed <==> d.completed == Some(true))
    ensures d.status.None? ==> s != InProgress
  {
    match d.status
    case Some(s) => s
    case None => if d.completed == Some(true) then Completed else ToDo
  }

  /** `convertFirestoreToTodo`: a missing field reads as its default, and a
      missing timestamp as the time of reading. */
  function Read(id: Id, d: Doc, now: Time): (t: Todo)
    ensures t.id == id && t.status == ReadStatus(d)
    ensures d.title.None? ==> t.title == ""
    ensures d.description.None? ==> t.description == ""
    ensures d.completed.None? ==> !t.completed
    ensures d.priority.None? ==> t.priority == Medium
    ensures d.createdAt.None? ==> t.createdAt == now
    ensures d.updatedAt.None? ==> t.updatedAt == now
    ensures t.dueDate == d.dueDate
    ensures d.title.Some? ==> t.title == d.title.value
    ensures d.description.Some? ==> t.description == d.description.value
    ensures d.completed.Some? ==> t.completed == d.completed.value
    ensures d.priority.Some? ==> t.priority == d.priority.value
    ensures d.createdAt.Some? ==> t.createdAt == d.createdAt.value
    ensures d.updatedAt.Some? ==> t.updatedAt == d.updatedAt.value
  {
    Todo(
      id,
      d.title.GetOr(""),
      d.description.GetOr(""),
      d.completed.GetOr(false),
      ReadStatus(d),
      d.priority.GetOr(Medium),
      d.createdAt.GetOr(now),
      d.updatedAt.GetOr(now),
      d.dueDate)
  }

  /** The invariant stated on a stored document: it reads as a consistent task. */
  predicate DocConsistent(d: Doc) {
    d.completed.GetOr(false) == (ReadStatus(d) == Completed)
  }

  /** Whether a read task is consistent depends only on the document. */
  lemma ReadConsistentIff(id: Id, d: Doc, now: Time)
    ensures Consistent(Read(id, d, now)) <==> DocConsistent(d)
  {
  }

  /** A legacy document without a stage always reads as a consistent task,
      completed when its flag is set and still to do otherwise. */
  lemma MigrationConsistent(id: Id, d: Doc, now: Time)
    requires d.status.None?
    ensures Consistent(Read(id, d, now))
    ensures Read(id, d, now).status == (if d.completed == Some(true) then Completed else ToDo)
  {
  }

  predicate StoreConsistent(store: Store) {
    forall id :: id in store ==> DocConsistent(store[id])
  }

  // ---------------------------------------------------------------- create

  /** The document `addTodo` stores: the form fields, then a fresh task that is
      not completed and still to do, stamped with the server time. */
  function NewDoc(data: FormData, now: Time): (d: Doc)
    ensures d.completed == Some(false) && d.status == Some(ToDo)
    ensures d.createdAt == Some(now) && d.updatedAt == Some(now)
    ensures d.dueDate == data.dueDate
  {
    Doc(Some(data.title), data.description, Some(false), Some(ToDo), Some(data.priority),
        Some(now), Some(now), data.dueDate)
  }

  /** `addTodo`: the store files the new document under an identifier it
      generates, so `id` is not yet in use. A refused write changes nothing. */
  function Create(store: Store, id: Id, data: FormData, now: Time, accepted: bool): (r: Outcome<Store>)
    requires id !in store
    ensures r.Ok? <==> accepted
    ensures r.Err? ==> r.error == Rejected(CreateOp)
    ensures r.Ok? ==> r.value.Keys == store.Keys + {id} && |r.value| == |store| + 1
    ensures r.Ok? ==> forall k :: k in store ==> r.value[k] == store[k]
    ensures r.Ok? ==> r.value[id] == NewDoc(data, now)
  {
    if accepted then Ok(store[id := NewDoc(data, now)]) else Err(Rejected(CreateOp))
  }

  /** Reading back a created task gives the submitted form fields, a task still
      to do and not completed, and the creation time for both timestamps. */
  lemma ReadAfterCreate(store: Store, id: Id, data: FormData, now: Time, later: Time)
    requires id !in store
    ensures var r := Create(store, id, data, now, true);
      && r.Ok?
      && var t := Read(id, r.value[id], later);
      && t.title == data.title
      && t.description == data.description.GetOr("")
      && t.priority == data.priority
      && t.dueDate == data.dueDate
      && t.status == ToDo && !t.completed && Consistent(t)
      && t.createdAt == now && t.updatedAt == now
  {
  }

  // ---------------------------------------------------------------- update

  /** `Partial<Todo>`: each field is either supplied or left alone. A supplied
      due date may be `null` (`Some(None)`). */
  datatype Patch = Patch(
    title: Option<string>,
    description: Option<string>,
    completed: Option<bool>,
    status: Option<Status>,
    priority: Option<Priority>,
    createdAt: Option<Time>,
    dueDate: Option<Option<Time>>)

  const EmptyPatch := Patch(None, None, None, None, None, None, None)

  /** A supplied field wins over the stored one. */
  function Override<T>(supplied: Option<T>, current: Option<T>): Option<T> {
    if supplied.Some? then supplied else current
  }

  /** The document `updateDoc` leaves: supplied fields replace stored ones,
      `updatedAt` becomes the server time, nothing else changes. */
  function Merge(d: Doc, p: Patch, now: Time): (m: Doc)
    ensures m.updatedAt == Some(now)
    ensures p.title.None? ==> m.title == d.title
    ensures p.description.None? ==> m.description == d.description
    ensures p.completed.None? ==> m.completed == d.completed
    ensures p.status.None? ==> m.status == d.status
    ensures p.priority.None? ==> m.priority == d.priority
    ensures p.createdAt.None? ==> m.createdAt == d.createdAt
    ensures p.dueDate.None? ==> m.dueDate == d.dueDate
    ensures p.title.Some? ==> m.title == p.title
    ensures p.description.Some? ==> m.description == p.description
    ensures p.completed.Some? ==> m.completed == p.completed
    ensures p.status.Some? ==> m.status == p.status
    ensures p.priority.Some? ==> m.priority == p.priority
    ensures p.createdAt.Some? ==> m.createdAt == p.createdAt
    ensures p.dueDate.Some? ==> m.dueDate == p.dueDate.value
  {
    Doc(
      Override(p.title, d.title),
      Override(p.description, d.description),
      Override(p.completed, d.completed),
      Override(p.status, d.status),
      Override(p.priority, d.priority),
      Override(p.createdAt, d.createdAt),
      Some(now),
      p.dueDate.GetOr(d.dueDate))
  }

  /** Applying the same update twice is applying it once. */
  lemma MergeIdempotent(d: Doc, p: Patch, now: Time)
    ensures Merge(Merge(d, p, now), p, now) == Merge(d, p, now)
  {
  }

  /** An update that supplies nothing only refreshes `updatedAt`. */
  lemma MergeEmpty(d: Doc, now: Time)
    ensures Merge(d, EmptyPatch, now) == d.(updatedAt := Some(now))
  {
  }

  /** `updateTodo`: a refused write or a missing document changes nothing and
      is reported to the caller; otherwise only the addressed document
      changes, and only in the supplied fields and `updatedAt`. */
  function Update(store: Store, id: Id, p: Patch, now: Time, accepted: bool): (r: Outcome<Store>)
    ensures r.Ok? <==> accepted && id in store
    ensures !accepted ==> r == Err(Rejected(UpdateOp))
    ensures accepted && id !in store ==> r == Err(NotFound(UpdateOp))
    ensures r.Ok? ==> r.value.Keys == store.Keys
    ensures r.Ok? ==> forall k :: k in store && k != id ==> r.value[k] == store[k]
    ensures r.Ok? ==> r.value[id] == Merge(store[id], p, now)
  {
    if !accepted then Err(Rejected(UpdateOp))
    else if id !in store then Err(NotFound(UpdateOp))
    else Ok(store[id := Merge(store[id], p, now)])
  }

  function StatusPatch(s: Status): Patch {
    EmptyPatch.(status := Some(s), completed := Some(s == Completed))
  }

  /** `updateTodoStatus`: writes the stage together with the matching flag, so
      the updated task is consistent whatever it was before. */
  function UpdateStatus(store: Store, id: Id, s: Status, now: Time, accepted: bool): (r: Outcome<Store>)
    ensures r.Ok? <==> accepted && id in store
    ensures r.Err? ==> r.error == (if accepted then NotFound(UpdateOp) else Rejected(UpdateOp))
    ensures r.Ok? ==> r.value.Keys == store.Keys
    ensures r.Ok? ==> forall k :: k in store && k != id ==> r.value[k] == store[k]
    ensures r.Ok? ==> r.value[id] == store[id].(status := Some(s), completed := Some(s == Completed), updatedAt := Some(now))
    ensures r.Ok? ==> ReadStatus(r.value[id]) == s && DocConsistent(r.value[id])
    ensures r.Ok? ==> StoreConsistent(store) ==> StoreConsistent(r.value)
  {
    Update(store, id, StatusPatch(s), now, accepted)
  }

  /** `toggleTodoComplete`: writes only the flag and the modification time.
      The stored stage, like every other field and every other document, is
      left as it was. */
  function ToggleComplete(store: Store, id: Id, completed: bool, now: Time, accepted: bool): (r: Outcome<Store>)
    ensures r.Ok? <==> accepted && id in store
    ensures r.Err? ==> r.error == (if accepted then NotFound(UpdateOp) else Rejected(UpdateOp))
    ensures r.Ok? ==> r.value.Keys == store.Keys
    ensures r.Ok? ==> forall k :: k in store && k != id ==> r.value[k] == store[k]
    ensures r.Ok? ==> r.value[id].status == store[id].status && r.value[id].completed == Some(completed)
    ensures r.Ok? ==> r.value[id] == store[id].(completed := Some(completed), updatedAt := Some(now))
  {
    Update(store, id, EmptyPatch.(completed := Some(completed)), now, accepted)
  }

  /** A toggle leaves the task consistent exactly when the task is a legacy
      one (its stage follows the flag) or the new flag matches its stage. */
  lemma ToggleConsistentIff(store: Store, id: Id, completed: bool, now: Time)
    requires id in store
    ensures var r := ToggleComplete(store, id, completed, now, true);
      r.Ok? && (DocConsistent(r.value[id]) <==>
        (store[id].status.None? || (completed <==> store[id].status.value == Completed)))
  {
  }

  /** A concrete case: checking the box of a consistent task that is in
      progress leaves a task that is completed but not in the completed stage. */
  lemma ToggleCanBreakConsistency()
    ensures var d := Doc(Some("t"), None, Some(false), Some(InProgress), Some(Medium), Some(0), Some(0), None);
      && DocConsistent(d)
      && var r := ToggleComplete(map["a" := d], "a", true, 1, true);
      && r.Ok? && !DocConsistent(r.value["a"])
  {
  }

  // ---------------------------------------------------------------- delete

  /** `deleteTodo`: there is no existence check, so deleting an identifier that
      is not stored succeeds and changes nothing. */
  function Delete(store: Store, id: Id, accepted: bool): (r: Outcome<Store>)
    ensures r.Ok? <==> accepted
    ensures r.Err? ==> r.error == Rejected(DeleteOp)
    ensures r.Ok? ==> id !in r.value && r.value.Keys == store.Keys - {id}
    ensures r.Ok? ==> forall k :: k in r.value ==> r.value[k] == store[k]
    ensures r.Ok? && id !in store ==> r.value == store
  {
    if accepted then Ok(store - {id}) else Err(Rejected(DeleteOp))
  }

  // ---------------------------------------------------------------- snapshot

  /** `t` is the task some stored document reads as. */
  predicate ReadFrom(store: Store, now: Time, t: Todo) {
    t.id in store && t == Read(t.id, store[t.id], now)
  }

  /** Reads every stored document once, in whatever order the store yields them. */
  method ReadAll(store: Store, now: Time) returns (read: seq<Todo>)
    ensures |read| == |store|
    ensures forall i :: 0 <= i < |read| ==> ReadFrom(store, now, read[i])
    ensures forall id :: id in store ==> exists i :: 0 <= i < |read| && read[i].id == id
  {
    var pending := store.Keys;
    read := [];
    while pending != {}
      invariant pending <= store.Keys
      invariant |read| + |pending| == |store.Keys|
      invariant forall i :: 0 <= i < |read| ==> read[i].id !in pending
      invariant forall i :: 0 <= i < |read| ==> ReadFrom(store, now, read[i])
      invariant forall id :: id in store.Keys - pending ==> exists i :: 0 <= i < |read| && read[i].id == id
      decreases pending
    {
      var id :| id in pending;
      ghost var before, pendingBefore := read, pending;
      var t := Read(id, store[id], now);
      assert t.id == id && ReadFrom(store, now, t);
      read := read + [t];
      pending := pending - {id};
      assert |pending| == |pendingBefore| - 1;
      assert forall i :: 0 <= i < |before| ==> read[i] == before[i];
      forall k | k in store.Keys - pending
        ensures exists i :: 0 <= i < |read| && read[i].id == k
      {
        if k == id {
          assert read[|read| - 1].id == k;
        } else {
          assert k in store.Keys - pendingBefore;
          var i :| 0 <= i < |before| && before[i].id == k;
          assert read[i].id == k;
        }
      }
    }
    assert store.Keys - pending == store.Keys;
  }

  /** `subscribeTodos`: the whole collection, each document read as a task,
      ordered by creation time, newest first. */
  method Snapshot(store: Store, now: Time) returns (snap: seq<Todo>)
    ensures |snap| == |store|
    ensures forall i :: 0 <= i < |snap| ==> ReadFrom(store, now, snap[i])
    ensures forall id :: id in store ==> exists i :: 0 <= i < |snap| && snap[i].id == id
    ensures forall i, j :: 0 <= i < j < |snap| ==> snap[i].createdAt >= snap[j].createdAt
    ensures StoreConsistent(store) ==> forall i :: 0 <= i < |snap| ==> Consistent(snap[i])
  {
    var read := ReadAll(store, now);
    var newestFirst := (t: Todo) => -t.createdAt;
    snap := Ordering.Sort(read, newestFirst);
    forall i | 0 <= i < |snap|
      ensures ReadFrom(store, now, snap[i])
    {
      assert snap[i] in multiset(read);
    }
    forall id | id in store
      ensures exists i :: 0 <= i < |snap| && snap[i].id == id
    {
      var j :| 0 <= j < |read| && read[j].id == id;
      assert read[j] in multiset(snap);
    }
    forall i, j | 0 <= i < j < |snap|
      ensures snap[i].createdAt >= snap[j].createdAt
    {
      assert newestFirst(snap[i]) <= newestFirst(snap[j]);
    }
    forall i | 0 <= i < |snap| && StoreConsistent(store)
      ensures Consistent(snap[i])
    {
      ReadConsistentIff(snap[i].id, store[snap[i].id], now);
    }
    assert |snap| == |multiset(snap)| == |read|;
  }

  // ---------------------------------------------------------------- write sequences

  /** The writes the application issues, with the form fields an edit sends. */
  datatype Write =
    | CreateTask(id: Id, data: FormData)
    | EditTask(id: Id, data: FormData)
    | MoveTask(id: Id, status: Status)
    | DeleteTask(id: Id)
    | ToggleTask(id: Id, completed: bool)

  /** One write, the server time it is applied at and whether it is accepted. */
  datatype Call = Call(write: Write, at: Time, accepted: bool)

  /** The update an edit sends: only the form fields. */
  function FormPatch(data: FormData): (p: Patch)
    ensures p.status.None? && p.completed.None? && p.createdAt.None?
    ensures p.title == Some(data.title) && p.priority == Some(data.priority)
    ensures p.description == data.description
    ensures p.dueDate == Some(data.dueDate)
  {
    Patch(Some(data.title), data.description, None, None, Some(data.priority), None, Some(data.dueDate))
  }

  predicate CreatesFresh(store: Store, c: Call) {
    c.write.CreateTask? ==> c.write.id !in store
  }

  function Apply(store: Store, c: Call): Outcome<Store>
    requires CreatesFresh(store, c)
  {
    match c.write
    case CreateTask(id, data) => Create(store, id, data, c.at, c.accepted)
    case EditTask(id, data) => Update(store, id, FormPatch(data), c.at, c.accepted)
    case MoveTask(id, s) => UpdateStatus(store, id, s, c.at, c.accepted)
    case DeleteTask(id) => Delete(store, id, c.accepted)
    case ToggleTask(id, b) => ToggleComplete(store, id, b, c.at, c.accepted)
  }

  /** The store after a call: a refused call leaves it unchanged. */
  function After(store: Store, c: Call): Store
    requires CreatesFresh(store, c)
  {
    match Apply(store, c)
    case Ok(s) => s
    case Err(_) => store
  }

  /** Every write other than a toggle keeps every stored task consistent. */
  lemma StepPreservesConsistency(store: Store, c: Call)
    requires CreatesFresh(store, c) && !c.write.ToggleTask?
    requires StoreConsistent(store)
    ensures StoreConsistent(After(store, c))
  {
    var r := Apply(store, c);
    if r.Ok? {
      match c.write
      case CreateTask(id, data) =>
      case EditTask(id, data) =>
        assert DocConsistent(r.value[id]);
      case MoveTask(id, s) =>
      case DeleteTask(id) =>
    }
  }

  /** The identifiers each create in a sequence of calls uses are fresh at the
      time it is applied. */
  ghost predicate FreshTrace(store: Store, calls: seq<Call>)
    decreases |calls|
  {
    |calls| == 0 || (CreatesFresh(store, calls[0]) && FreshTrace(After(store, calls[0]), calls[1..]))
  }

  function Replay(store: Store, calls: seq<Call>): Store
    requires FreshTrace(store, calls)
    decreases |calls|
  {
    if |calls| == 0 then store else Replay(After(store, calls[0]), calls[1..])
  }

  /** Any sequence of creates, edits, stage moves and deletes, accepted or
      not, keeps every stored task consistent: only the checkbox toggle can
      break the invariant. */
  lemma {:induction false} ReplayPreservesConsistency(store: Store, calls: seq<Call>)
    requires FreshTrace(store, calls)
    requires forall i :: 0 <= i < |calls| ==> !calls[i].write.ToggleTask?
    requires StoreConsistent(store)
    ensures StoreConsistent(Replay(store, calls))
    decreases |calls|
  {
    if |calls| > 0 {
      StepPreservesConsistency(store, calls[0]);
      ReplayPreservesConsistency(After(store, calls[0]), calls[1..]);
    }
  }
}
