/** The task board's operations as whole-list transformations: what each
    `setTasks(prev => ...)` callback of the task hook computes from the
    previous list, plus the seed list and the rule that picks the initial
    list at startup. Ids and timestamps are the caller's: the hook draws
    them from the clock and a random source. */
module TaskOps {
  import opened Wrappers
  import opened TaskTypes
  import Seqs
  import Strings

  const TaskCreated: string := "Task created"
  const CommentAdded: string := "Comment added"

  /** The action logged when a task moves to status `s`. */
  function MovedTo(s: Status): string {
    "Moved to " + StatusName(s)
  }

  /** `prev.map(t => t.id === id ? f(t) : t)`. */
  function MapMatching(ts: seq<Task>, id: string, f: Task -> Task): (r: seq<Task>)
    ensures |r| == |ts|
    ensures forall i :: 0 <= i < |ts| && ts[i].id != id ==> r[i] == ts[i]
    ensures forall i :: 0 <= i < |ts| && ts[i].id == id ==> r[i] == f(ts[i])
  {
    seq(|ts|, i requires 0 <= i < |ts| => if ts[i].id == id then f(ts[i]) else ts[i])
  }

  // ---------------------------------------------------------------- addTask

  /** Appends a new pending task whose log holds the single creation entry,
      stamped with the creation time. */
  function AddTask(ts: seq<Task>, id: string, entryId: string, title: string, description: string,
                   priority: Priority, deadline: string, now: string): (r: seq<Task>)
    ensures |r| == |ts| + 1 && r[..|ts|] == ts
    ensures var t := r[|ts|];
      && t.id == id && t.title == title && t.description == description
      && t.priority == priority && t.deadline == deadline && t.createdAt == now
      && t.status == Pending && t.subtasks == [] && t.comments == []
      && t.activity == [ActivityEntry(entryId, TaskCreated, now)]
      && t.activity[0].timestamp == t.createdAt
  {
    ts + [Task(id, title, description, priority, Pending, deadline, [], [], [ActivityEntry(entryId, TaskCreated, now)], now)]
  }

  /** A fresh id keeps the task ids distinct. */
  lemma AddTaskKeepsIdsUnique(ts: seq<Task>, id: string, entryId: string, title: string, description: string,
                              priority: Priority, deadline: string, now: string)
    requires UniqueTaskIds(ts)
    requires forall i :: 0 <= i < |ts| ==> ts[i].id != id
    ensures UniqueTaskIds(AddTask(ts, id, entryId, title, description, priority, deadline, now))
  {
    var r := AddTask(ts, id, entryId, title, description, priority, deadline, now);
    forall i, j | 0 <= i < j < |r| ensures r[i].id != r[j].id {
      assert r[i] == ts[i];
      if j < |ts| { assert r[j] == ts[j]; }
    }
  }

  // ------------------------------------------------------------- updateTask

  /** A `Partial<Task>`: each field either given or absent. */
  datatype TaskPatch = TaskPatch(
    id: Option<string>,
    title: Option<string>,
    description: Option<string>,
    priority: Option<Priority>,
    status: Option<Status>,
    deadline: Option<string>,
    subtasks: Option<seq<Subtask>>,
    comments: Option<seq<Comment>>,
    activity: Option<seq<ActivityEntry>>,
    createdAt: Option<string>)

  const NoChanges: TaskPatch := TaskPatch(None, None, None, None, None, None, None, None, None, None)

  /** `{ ...t, ...p }`: the fields `p` gives, the rest from `t`. */
  function Merge(t: Task, p: TaskPatch): Task {
    Task(p.id.GetOr(t.id), p.title.GetOr(t.title), p.description.GetOr(t.description),
         p.priority.GetOr(t.priority), p.status.GetOr(t.status), p.deadline.GetOr(t.deadline),
         p.subtasks.GetOr(t.subtasks), p.comments.GetOr(t.comments), p.activity.GetOr(t.activity),
         p.createdAt.GetOr(t.createdAt))
  }

  /** A shallow merge changes exactly the fields the patch gives: each field
      takes the patch's value when given and keeps the task's otherwise, so
      the empty patch changes nothing and merging the same patch twice is
      merging it once. */
  lemma MergeLaws(t: Task, p: TaskPatch)
    ensures Merge(t, NoChanges) == t
    ensures Merge(Merge(t, p), p) == Merge(t, p)
    ensures Merge(t, p).id == (if p.id.Some? then p.id.value else t.id)
    ensures Merge(t, p).title == (if p.title.Some? then p.title.value else t.title)
    ensures Merge(t, p).description == (if p.description.Some? then p.description.value else t.description)
    ensures Merge(t, p).priority == (if p.priority.Some? then p.priority.value else t.priority)
    ensures Merge(t, p).status == (if p.status.Some? then p.status.value else t.status)
    ensures Merge(t, p).deadline == (if p.deadline.Some? then p.deadline.value else t.deadline)
    ensures Merge(t, p).subtasks == (if p.subtasks.Some? then p.subtasks.value else t.subtasks)
    ensures Merge(t, p).comments == (if p.comments.Some? then p.comments.value else t.comments)
    ensures Merge(t, p).activity == (if p.activity.Some? then p.activity.value else t.activity)
    ensures Merge(t, p).createdAt == (if p.createdAt.Some? then p.createdAt.value else t.createdAt)
  {
  }

  /** Shallow-merges `p` onto every task with id `id`. */
  function UpdateTask(ts: seq<Task>, id: string, p: TaskPatch): (r: seq<Task>)
    ensures |r| == |ts|
    ensures forall i :: 0 <= i < |ts| && ts[i].id != id ==> r[i] == ts[i]
    ensures forall i :: 0 <= i < |ts| && ts[i].id == id ==> r[i] == Merge(ts[i], p)
  {
    MapMatching(ts, id, (t: Task) => Merge(t, p))
  }

  /** Unlike moving and commenting, an update never appends to a log: a patch
      without `activity` leaves every log as it was. */
  lemma UpdateNeverLogs(ts: seq<Task>, id: string, p: TaskPatch)
    requires p.activity.None?
    ensures forall i :: 0 <= i < |ts| ==> UpdateTask(ts, id, p)[i].activity == ts[i].activity
  {
  }

  // --------------------------------------------------------------- moveTask

  /** Moves every task with id `id` whose status differs from `s` to `s`,
      logging one "Moved to s" entry on it; all else is left alone. */
  function MoveTask(ts: seq<Task>, id: string, s: Status, entryId: string, at: string): (r: seq<Task>)
    ensures |r| == |ts|
    ensures forall i :: 0 <= i < |ts| && (ts[i].id != id || ts[i].status == s) ==> r[i] == ts[i]
    ensures forall i :: 0 <= i < |ts| && ts[i].id == id && ts[i].status != s ==>
      r[i] == ts[i].(status := s, activity := ts[i].activity + [ActivityEntry(entryId, MovedTo(s), at)])
  {
    MapMatching(ts, id, (t: Task) =>
      if t.status == s then t
      else t.(status := s, activity := t.activity + [ActivityEntry(entryId, MovedTo(s), at)]))
  }

  /** Moving a task that is not there changes nothing. */
  lemma MoveUnknownIsNoop(ts: seq<Task>, id: string, s: Status, entryId: string, at: string)
    requires forall i :: 0 <= i < |ts| ==> ts[i].id != id
    ensures MoveTask(ts, id, s, entryId, at) == ts
  {
  }

  /** A second move to the same status changes nothing, so it cannot log a
      duplicate entry. */
  lemma MoveTwiceIsMoveOnce(ts: seq<Task>, id: string, s: Status, e1: string, a1: string, e2: string, a2: string)
    ensures MoveTask(MoveTask(ts, id, s, e1, a1), id, s, e2, a2) == MoveTask(ts, id, s, e1, a1)
  {
    var r1 := MoveTask(ts, id, s, e1, a1);
    var r2 := MoveTask(r1, id, s, e2, a2);
    forall i | 0 <= i < |ts| ensures r2[i] == r1[i] {
      if ts[i].id == id {
        assert r1[i].id == id && r1[i].status == s;
      }
    }
  }

  /** A real move grows the log by exactly one entry, and that entry names
      the new status. */
  lemma MoveLogsNewStatus(ts: seq<Task>, id: string, s: Status, entryId: string, at: string, i: nat)
    requires i < |ts| && ts[i].id == id && ts[i].status != s
    ensures var t := MoveTask(ts, id, s, entryId, at)[i];
      |t.activity| == |ts[i].activity| + 1
      && t.activity[..|ts[i].activity|] == ts[i].activity
      && Strings.Contains(t.activity[|ts[i].activity|].action, StatusName(s))
  {
    var t := MoveTask(ts, id, s, entryId, at)[i];
    assert t.activity[..|ts[i].activity|] == ts[i].activity;
    Strings.ContainsSpliced("Moved to ", StatusName(s), "");
    assert "Moved to " + StatusName(s) + "" == MovedTo(s);
  }

  // ------------------------------------------------------------- deleteTask

  /** Removes every task with id `id`, keeping the others in order. */
  function DeleteTask(ts: seq<Task>, id: string): (r: seq<Task>)
    ensures forall t :: t in r <==> t in ts && t.id != id
    ensures forall t :: multiset(r)[t] == if t.id == id then 0 else multiset(ts)[t]
    ensures Seqs.IsSubsequence(r, ts)
    ensures (forall i :: 0 <= i < |ts| ==> ts[i].id != id) ==> r == ts
  {
    var keep := (t: Task) => t.id != id;
    Seqs.FilterIsSubsequence(ts, keep);
    Seqs.FilterMultiset(ts, keep);
    Seqs.FilterAll(ts, keep);
    Seqs.FilterMembers(ts, keep);
    Seqs.Filter(ts, keep)
  }

  /** Deleting keeps the remaining ids distinct. */
  lemma {:induction false} DeleteKeepsIdsUnique(ts: seq<Task>, id: string)
    requires UniqueTaskIds(ts)
    ensures UniqueTaskIds(DeleteTask(ts, id))
    decreases |ts|
  {
    if ts != [] {
      var tail := ts[1..];
      assert UniqueTaskIds(tail) by {
        forall i, j | 0 <= i < j < |tail| ensures tail[i].id != tail[j].id {
          assert tail[i] == ts[i + 1] && tail[j] == ts[j + 1];
        }
      }
      DeleteKeepsIdsUnique(tail, id);
      var keep := (t: Task) => t.id != id;
      var rt := DeleteTask(tail, id);
      assert Seqs.Filter(ts, keep) == if keep(ts[0]) then [ts[0]] + Seqs.Filter(tail, keep) else Seqs.Filter(tail, keep);
      if ts[0].id != id {
        HeadIdFresh(ts);
        ConsKeepsIdsUnique(ts[0], rt);
      }
    }
  }

  /** In a list with distinct ids, no later task shares the first one's id. */
  lemma HeadIdFresh(ts: seq<Task>)
    requires ts != [] && UniqueTaskIds(ts)
    ensures forall t :: t in ts[1..] ==> t.id != ts[0].id
  {
    forall t | t in ts[1..] ensures t.id != ts[0].id {
      var k :| 0 <= k < |ts[1..]| && ts[1..][k] == t;
      assert ts[k + 1] == t;
    }
  }

  /** Putting a task in front of a list with distinct ids, none of them its
      own, keeps the ids distinct. */
  lemma ConsKeepsIdsUnique(t: Task, rest: seq<Task>)
    requires UniqueTaskIds(rest)
    requires forall u :: u in rest ==> u.id != t.id
    ensures UniqueTaskIds([t] + rest)
  {
    var r := [t] + rest;
    forall i, j | 0 <= i < j < |r| ensures r[i].id != r[j].id {
      assert r[j] == rest[j - 1];
      if i > 0 {
        assert r[i] == rest[i - 1];
      }
    }
  }

  // ------------------------------------------------------------- addSubtask

  /** Appends an open subtask to every task with id `taskId`. */
  function AddSubtask(ts: seq<Task>, taskId: string, subtaskId: string, title: string): (r: seq<Task>)
    ensures |r| == |ts|
    ensures forall i :: 0 <= i < |ts| && ts[i].id != taskId ==> r[i] == ts[i]
    ensures forall i :: 0 <= i < |ts| && ts[i].id == taskId ==>
      r[i] == ts[i].(subtasks := ts[i].subtasks + [Subtask(subtaskId, title, false)])
  {
    MapMatching(ts, taskId, (t: Task) => t.(subtasks := t.subtasks + [Subtask(subtaskId, title, false)]))
  }

  /** A subtask id fresh within the task keeps its subtask ids distinct. */
  lemma AddSubtaskKeepsIdsUnique(ts: seq<Task>, taskId: string, subtaskId: string, title: string, i: nat)
    requires i < |ts| && UniqueSubtaskIds(ts[i])
    requires forall k :: 0 <= k < |ts[i].subtasks| ==> ts[i].subtasks[k].id != subtaskId
    ensures UniqueSubtaskIds(AddSubtask(ts, taskId, subtaskId, title)[i])
  {
  }

  // ---------------------------------------------------------- toggleSubtask

  /** Flips `completed` on every subtask with id `subtaskId`. */
  function FlipSubtask(subs: seq<Subtask>, subtaskId: string): (r: seq<Subtask>)
    ensures |r| == |subs|
    ensures forall j :: 0 <= j < |subs| ==>
      && r[j].id == subs[j].id && r[j].title == subs[j].title
      && r[j].completed == (subs[j].completed != (subs[j].id == subtaskId))
  {
    seq(|subs|, j requires 0 <= j < |subs| =>
      if subs[j].id == subtaskId then subs[j].(completed := !subs[j].completed) else subs[j])
  }

  /** Toggles subtask `subtaskId` of every task with id `taskId`. */
  function ToggleSubtask(ts: seq<Task>, taskId: string, subtaskId: string): (r: seq<Task>)
    ensures |r| == |ts|
    ensures forall i :: 0 <= i < |ts| && ts[i].id != taskId ==> r[i] == ts[i]
    ensures forall i :: 0 <= i < |ts| && ts[i].id == taskId ==>
      r[i] == ts[i].(subtasks := FlipSubtask(ts[i].subtasks, subtaskId))
  {
    MapMatching(ts, taskId, (t: Task) => t.(subtasks := FlipSubtask(t.subtasks, subtaskId)))
  }

  /** Toggling twice restores the list. */
  lemma ToggleTwiceRestores(ts: seq<Task>, taskId: string, subtaskId: string)
    ensures ToggleSubtask(ToggleSubtask(ts, taskId, subtaskId), taskId, subtaskId) == ts
  {
    var r1 := ToggleSubtask(ts, taskId, subtaskId);
    var r2 := ToggleSubtask(r1, taskId, subtaskId);
    forall i | 0 <= i < |ts| ensures r2[i] == ts[i] {
      if ts[i].id == taskId {
        var subs := ts[i].subtasks;
        var back := FlipSubtask(FlipSubtask(subs, subtaskId), subtaskId);
        assert back == subs by {
          forall j | 0 <= j < |subs| ensures back[j] == subs[j] {
          }
        }
      }
    }
  }

  // ------------------------------------------------------------- addComment

  /** Appends the comment and its "Comment added" log entry together. */
  function AddComment(ts: seq<Task>, taskId: string, commentId: string, text: string, commentAt: string,
                      entryId: string, entryAt: string): (r: seq<Task>)
    ensures |r| == |ts|
    ensures forall i :: 0 <= i < |ts| && ts[i].id != taskId ==> r[i] == ts[i]
    ensures forall i :: 0 <= i < |ts| && ts[i].id == taskId ==>
      r[i] == ts[i].(comments := ts[i].comments + [Comment(commentId, text, commentAt)],
                     activity := ts[i].activity + [ActivityEntry(entryId, CommentAdded, entryAt)])
  {
    MapMatching(ts, taskId, (t: Task) =>
      t.(comments := t.comments + [Comment(commentId, text, commentAt)],
         activity := t.activity + [ActivityEntry(entryId, CommentAdded, entryAt)]))
  }

  // ------------------------------------------------- invariants of all edits

  /** `after` is `before` with each task's id kept and each log only ever
      extended at its end. */
  ghost predicate LogsExtended(before: seq<Task>, after: seq<Task>) {
    && |after| == |before|
    && forall i :: 0 <= i < |before| ==>
         after[i].id == before[i].id && before[i].activity <= after[i].activity
  }

  /** Every in-place edit keeps ids and only appends to logs, so it also
      keeps task ids distinct. */
  lemma EditsOnlyAppendToLogs(ts: seq<Task>, id: string, s: Status, p: TaskPatch,
                              a: string, b: string, c: string, d: string, e: string)
    requires p.id.None? && p.activity.None?
    ensures LogsExtended(ts, MoveTask(ts, id, s, a, b))
    ensures LogsExtended(ts, UpdateTask(ts, id, p))
    ensures LogsExtended(ts, AddSubtask(ts, id, a, b))
    ensures LogsExtended(ts, ToggleSubtask(ts, id, a))
    ensures LogsExtended(ts, AddComment(ts, id, a, b, c, d, e))
  {
  }

  /** Keeping each task's id keeps the ids distinct. */
  lemma LogsExtendedKeepsIdsUnique(before: seq<Task>, after: seq<Task>)
    requires LogsExtended(before, after) && UniqueTaskIds(before)
    ensures UniqueTaskIds(after)
  {
    forall i, j | 0 <= i < j < |after| ensures after[i].id != after[j].id {
      assert after[i].id == before[i].id && after[j].id == before[j].id;
    }
  }

  // ------------------------------------------------------- seed and loading

  /** The example tasks shown when nothing usable is stored. */
  const DefaultTasks: seq<Task> := [
    Task("demo-1", "Configurar Gateway", "Setup inicial del gateway de OpenClaw con los canales necesarios",
         High, Completed, "2026-02-15",
         [Subtask("s1", "Instalar dependencias", true), Subtask("s2", "Configurar env vars", true)],
         [Comment("c1", "Gateway funcionando correctamente", "2026-02-10T10:00:00Z")],
         [ActivityEntry("a1", "Task created", "2026-02-08T09:00:00Z"),
          ActivityEntry("a2", "Moved to Completada", "2026-02-10T10:00:00Z")],
         "2026-02-08T09:00:00Z"),
    Task("demo-2", "Dise\U{00F1}ar Mission Control UI", "Crear la interfaz del dashboard con efecto Liquid Glass",
         High, InProgress, "2026-02-14",
         [Subtask("s3", "Layout base", true), Subtask("s4", "Dashboard cards", true), Subtask("s5", "Task Board", false)],
         [], [ActivityEntry("a3", "Task created", "2026-02-12T14:00:00Z")],
         "2026-02-12T14:00:00Z"),
    Task("demo-3", "Conectar API de OpenClaw", "Integrar datos reales del gateway",
         Medium, Pending, "2026-02-20",
         [], [], [ActivityEntry("a4", "Task created", "2026-02-13T08:00:00Z")],
         "2026-02-13T08:00:00Z")
  ]

  /** The seed has three tasks with distinct ids, each with distinct subtask
      ids and a log that opens with its creation entry. */
  lemma SeedIsWellFormed()
    ensures |DefaultTasks| == 3 && UniqueTaskIds(DefaultTasks)
    ensures forall i :: 0 <= i < |DefaultTasks| ==>
      && UniqueSubtaskIds(DefaultTasks[i])
      && |DefaultTasks[i].activity| >= 1
      && DefaultTasks[i].activity[0].action == TaskCreated
      && DefaultTasks[i].activity[0].timestamp == DefaultTasks[i].createdAt
  {
    var d := DefaultTasks;
    assert UniqueSubtaskIds(d[0]) && UniqueSubtaskIds(d[2]);
    assert UniqueSubtaskIds(d[1]) by {
      var subs := d[1].subtasks;
      assert subs[0].id == "s3" && subs[1].id == "s4" && subs[2].id == "s5";
    }
  }

  /** The seed puts one task in each column. */
  lemma {:induction false} SeedFillsEachColumn(s: Status)
    ensures ColumnTasks(DefaultTasks, s) == [DefaultTasks[if s == Completed then 0 else if s == InProgress then 1 else 2]]
  {
    var d := DefaultTasks;
    var p := (t: Task) => t.status == s;
    assert d[1..][1..][1..] == [];
    Seqs.FilterCons(d, p);
    Seqs.FilterCons(d[1..], p);
    Seqs.FilterCons(d[1..][1..], p);
  }

  /** The startup choice: a non-empty stored value that parses becomes the
      list; an absent or empty value, or one that does not parse, gives the
      seed. `parse` stands for `JSON.parse`. */
  function LoadTasks(stored: Option<string>, parse: string -> Option<seq<Task>>): (r: seq<Task>)
    ensures stored.None? || stored == Some("") ==> r == DefaultTasks
    ensures stored.Some? && stored.value != "" && parse(stored.value).Some? ==> r == parse(stored.value).value
    ensures stored.Some? && parse(stored.value).None? ==> r == DefaultTasks
  {
    match stored
    case None => DefaultTasks
    case Some(text) =>
      if text == "" then DefaultTasks
      else match parse(text)
        case Some(ts) => ts
        case None => DefaultTasks
  }

  /** What was saved is what is loaded, whenever `parse` undoes `encode`
      (`JSON.parse` undoes `JSON.stringify`, which never yields ""). */
  lemma LoadAfterSave(ts: seq<Task>, encode: seq<Task> -> string, parse: string -> Option<seq<Task>>)
    requires encode(ts) != "" && parse(encode(ts)) == Some(ts)
    ensures LoadTasks(Some(encode(ts)), parse) == ts
  {
  }
}
