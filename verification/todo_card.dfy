/** A board card: its overdue highlight, priority style and keyboard shortcuts. */
module TodoCard {
  import opened TodoTypes

  /** The card's overdue test reads the stage: a due date in the past on a
      task not in the completed stage. */
  function IsOverdue(t: Todo, now: Time): (r: bool)
    ensures t.status == Completed ==> !r
    ensures t.dueDate.None? ==> !r
    ensures t.dueDate.Some? && t.status != Completed ==> (r <==> t.dueDate.value < now)
  {
    t.dueDate.Some? && t.dueDate.value < now && t.status != Completed
  }

  /** `getPriorityClass`: a style for each known priority literal, none for
      anything else. */
  function PriorityClass(p: string): (r: string)
    ensures r != "" <==> ParsePriority(p).Some?
    ensures r != "" ==> r == "priority-" + p
  {
    match ParsePriority(p)
    case Some(High) => "priority-high"
    case Some(Medium) => "priority-medium"
    case Some(Low) => "priority-low"
    case None => ""
  }

  /** Every priority of a task gets its own style. */
  lemma PriorityClassDistinct(p: Priority, q: Priority)
    ensures PriorityClass(PriorityName(p)) != ""
    ensures PriorityClass(PriorityName(p)) == PriorityClass(PriorityName(q)) ==> p == q
  {
    PriorityNameRoundTrip(p, q);
  }

  datatype KeyAction = EditCard | DeleteCard | NoAction

  /** `handleKeyDown`: Enter or Space edits, Delete deletes, any other key
      does nothing. */
  function KeyDown(key: string): (a: KeyAction)
    ensures a == EditCard <==> key == "Enter" || key == " "
    ensures a == DeleteCard <==> key == "Delete"
  {
    if key == "Enter" || key == " " then EditCard
    else if key == "Delete" then DeleteCard
    else NoAction
  }

  /** Exactly three keys act on a card, and no key both edits and deletes. */
  lemma OnlyThreeKeysAct(key: string)
    ensures KeyDown(key) != NoAction <==> key in ["Enter", " ", "Delete"]
    ensures KeyDown(key) == DeleteCard ==> key != "Enter" && key != " "
  {
  }
}
