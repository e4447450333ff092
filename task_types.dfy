/** The task board's data model: priorities, statuses, tasks with their owned
    subtasks, comments and activity log, and the three board columns. */
module TaskTypes {
  import opened Wrappers
  import Seqs

  datatype Priority = High | Medium | Low

  datatype Status = Pending | InProgress | Completed

  /** The names priorities carry in stored and displayed data. */
  function PriorityName(p: Priority): string {
    match p
    case High => "high"
    case Medium => "medium"
    case Low => "low"
  }

  function PriorityFromName(s: string): (r: Option<Priority>)
    ensures r.Some? ==> PriorityName(r.value) == s
  {
    if s == "high" then Some(High)
    else if s == "medium" then Some(Medium)
    else if s == "low" then Some(Low)
    else None
  }

  /** The names statuses carry in stored data and in "Moved to ..." entries. */
  function StatusName(s: Status): string {
    match s
    case Pending => "pending"
    case InProgress => "in-progress"
    case Completed => "completed"
  }

  function StatusFromName(s: string): (r: Option<Status>)
    ensures r.Some? ==> StatusName(r.value) == s
  {
    if s == "pending" then Some(Pending)
    else if s == "in-progress" then Some(InProgress)
    else if s == "completed" then Some(Completed)
    else None
  }

  /** Exactly three priority names and three status names are recognised,
      one per value, and every value's name is recognised. */
  lemma NamesRoundTrip(p: Priority, s: Status, text: string)
    ensures PriorityFromName(PriorityName(p)) == Some(p)
    ensures StatusFromName(StatusName(s)) == Some(s)
    ensures PriorityFromName(text).Some? <==> text in {"high", "medium", "low"}
    ensures StatusFromName(text).Some? <==> text in {"pending", "in-progress", "completed"}
  {
  }

  datatype Subtask = Subtask(id: string, title: string, completed: bool)

  datatype Comment = Comment(id: string, text: string, createdAt: string)

  datatype ActivityEntry = ActivityEntry(id: string, action: string, timestamp: string)

  datatype Task = Task(
    id: string,
    title: string,
    description: string,
    priority: Priority,
    status: Status,
    deadline: string,
    subtasks: seq<Subtask>,
    comments: seq<Comment>,
    activity: seq<ActivityEntry>,
    createdAt: string)

  datatype Column = Column(id: Status, caption: string, icon: string)

  /** The board's columns, left to right. */
  const Columns: seq<Column> := [
    Column(Pending, "Pendiente", "\U{23F3}"),
    Column(InProgress, "En Proceso", "\U{1F504}"),
    Column(Completed, "Completada", "\U{2705}")
  ]

  /** The columns are pending, in-progress, completed, in that order, so each
      status has exactly one column. */
  lemma ColumnsCoverStatuses(s: Status)
    ensures |Columns| == 3
    ensures Columns[0].id == Pending && Columns[1].id == InProgress && Columns[2].id == Completed
    ensures exists i :: 0 <= i < |Columns| && Columns[i].id == s
    ensures forall i, j :: 0 <= i < j < |Columns| ==> Columns[i].id != Columns[j].id
  {
    var i := if s == Pending then 0 else if s == InProgress then 1 else 2;
    assert Columns[i].id == s;
  }

  /** The tasks the board shows in the column for `s`, in list order. */
  function ColumnTasks(ts: seq<Task>, s: Status): (r: seq<Task>)
    ensures forall t :: t in r <==> t in ts && t.status == s
    ensures Seqs.IsSubsequence(r, ts)
    ensures forall t :: multiset(r)[t] == if t.status == s then multiset(ts)[t] else 0
  {
    var inColumn := (t: Task) => t.status == s;
    Seqs.FilterMembers(ts, inColumn);
    Seqs.FilterIsSubsequence(ts, inColumn);
    Seqs.FilterMultiset(ts, inColumn);
    Seqs.Filter(ts, inColumn)
  }

  /** Every task appears in the column of its status and in no other. */
  lemma ColumnsPartition(ts: seq<Task>, t: Task, c: Column)
    requires t in ts && c in Columns
    ensures t in ColumnTasks(ts, c.id) <==> c.id == t.status
  {
  }

  /** The three column counts add up to the number of tasks. */
  lemma {:induction false} ColumnCountsSum(ts: seq<Task>)
    ensures |ColumnTasks(ts, Columns[0].id)| + |ColumnTasks(ts, Columns[1].id)|
          + |ColumnTasks(ts, Columns[2].id)| == |ts|
    decreases |ts|
  {
    if ts != [] {
      ColumnCountsSum(ts[1..]);
    }
  }

  /** No two tasks of `ts` share an id. */
  predicate UniqueTaskIds(ts: seq<Task>) {
    forall i, j :: 0 <= i < j < |ts| ==> ts[i].id != ts[j].id
  }

  /** No two subtasks of `t` share an id. */
  predicate UniqueSubtaskIds(t: Task) {
    forall i, j :: 0 <= i < j < |t.subtasks| ==> t.subtasks[i].id != t.subtasks[j].id
  }
}
