/** The lab page: spawning sub-agent tasks through the gateway's direct
    tool endpoint and tracking them in a list of spawned tasks, plus the
    list of isolated sessions. */
module Lab {
  import opened Wrappers
  import opened Json
  import Strings
  import Gateway

  // ------------------------------------------------------ direct tool call

  /** The request the page's own tool call sends: to the gateway address
      itself, with a bearer token (sent even when the token is empty). */
  datatype DirectRequest = DirectRequest(url: string, headers: map<string, string>)

  function RequestFor(items: map<string, string>): (q: DirectRequest)
    ensures q.url == Gateway.ItemOrEmpty(items, Gateway.UrlKey) + "/tools/invoke"
    ensures q.headers.Keys == {"Authorization", "Content-Type"}
    ensures q.headers["Authorization"] == "Bearer " + Gateway.ItemOrEmpty(items, Gateway.TokenKey)
    ensures q.headers["Content-Type"] == "application/json"
  {
    DirectRequest(
      Gateway.ItemOrEmpty(items, Gateway.UrlKey) + "/tools/invoke",
      map["Authorization" := "Bearer " + Gateway.ItemOrEmpty(items, Gateway.TokenKey),
          "Content-Type" := "application/json"])
  }

  /** `data.result?.error || 'API error'`: unlike the shared client, no
      fallback to a top-level `error`. */
  function DirectCause(body: Value): (v: Value)
    ensures Truthy(v)
    ensures Truthy(Get(Get(body, "result"), "error")) ==> v == Get(Get(body, "result"), "error")
    ensures !Truthy(Get(Get(body, "result"), "error")) ==> v == Str("API error")
  {
    Or(Get(Get(body, "result"), "error"), Str("API error"))
  }

  /** The page's own unwrapping of a tool reply. */
  function DirectUnwrap(reply: Gateway.Reply): (r: Result<Value, Gateway.Failure>)
    ensures r.Err? <==> !reply.ok || Nullish(reply.body) || !Truthy(Get(reply.body, "ok"))
    ensures !reply.ok ==> r == Err(Gateway.Raised(Str(Gateway.StatusMessage(reply.status))))
    ensures reply.ok && Nullish(reply.body) ==> r == Err(Gateway.NullBody)
    ensures reply.ok && !Nullish(reply.body) && !Truthy(Get(reply.body, "ok")) ==>
      r == Err(Gateway.Raised(DirectCause(reply.body)))
    ensures r.Ok? ==> r.value == Gateway.Payload(reply.body)
  {
    if !reply.ok then Err(Gateway.Raised(Str(Gateway.StatusMessage(reply.status))))
    else if Nullish(reply.body) then Err(Gateway.NullBody)
    else if !Truthy(Get(reply.body, "ok")) then Err(Gateway.Raised(DirectCause(reply.body)))
    else Ok(Gateway.Payload(reply.body))
  }

  /** The page's unwrapping and the shared client's differ on exactly one
      kind of reply: a refusal whose `result` carries no error but whose
      top level carries one other than the default message. */
  lemma DirectDiffersFromProxy(reply: Gateway.Reply)
    ensures DirectUnwrap(reply) != Gateway.Unwrap(reply) <==>
      && reply.ok && !Nullish(reply.body) && !Truthy(Get(reply.body, "ok"))
      && !Truthy(Get(Get(reply.body, "result"), "error"))
      && Truthy(Get(reply.body, "error"))
      && Get(reply.body, "error") != Str("API error")
  {
    if reply.ok && !Nullish(reply.body) && !Truthy(Get(reply.body, "ok")) {
      var d := Gateway.ProxyCause(reply.body);
      var e := DirectCause(reply.body);
      assert DirectUnwrap(reply) != Gateway.Unwrap(reply) <==> d != e;
    }
  }

  // --------------------------------------------------------- spawned tasks

  datatype SpawnStatus = Running | Done | Error

  datatype SpawnedTask = SpawnedTask(id: string, task: string, status: SpawnStatus, result: Option<string>, startedAt: int)

  function Ids(ts: seq<SpawnedTask>): (ids: seq<string>)
    ensures |ids| == |ts|
    ensures forall i :: 0 <= i < |ts| ==> ids[i] == ts[i].id
  {
    seq(|ts|, i requires 0 <= i < |ts| => ts[i].id)
  }

  /** The entry a spawn prepends: running, with no result yet. */
  function Started(id: string, text: string, startedAt: int): (t: SpawnedTask)
    ensures t.id == id && t.task == text && t.status == Running && t.result.None? && t.startedAt == startedAt
  {
    SpawnedTask(id, text, Running, None, startedAt)
  }

  /** The completion update: the entry with the given id gets the final
      status and its result; every other entry, and the order, stays. */
  function Finish(ts: seq<SpawnedTask>, id: string, status: SpawnStatus, result: string): (r: seq<SpawnedTask>)
    ensures |r| == |ts|
    ensures forall i :: 0 <= i < |ts| && ts[i].id != id ==> r[i] == ts[i]
    ensures forall i :: 0 <= i < |ts| && ts[i].id == id ==>
      r[i] == ts[i].(status := status, result := Some(result))
  {
    seq(|ts|, i requires 0 <= i < |ts| =>
      if ts[i].id == id then ts[i].(status := status, result := Some(result)) else ts[i])
  }

  /** Completion keeps the ids in place, does nothing for an unknown id,
      and a second completion with the same outcome changes nothing more. */
  lemma FinishLaws(ts: seq<SpawnedTask>, id: string, status: SpawnStatus, result: string)
    ensures Ids(Finish(ts, id, status, result)) == Ids(ts)
    ensures id !in Ids(ts) ==> Finish(ts, id, status, result) == ts
    ensures Finish(Finish(ts, id, status, result), id, status, result) == Finish(ts, id, status, result)
  {
    var r := Finish(ts, id, status, result);
    assert Ids(r) == Ids(ts);
    if id !in Ids(ts) {
      assert forall i :: 0 <= i < |ts| ==> ts[i].id != id by {
        forall i | 0 <= i < |ts| ensures ts[i].id != id {
          assert Ids(ts)[i] == ts[i].id;
        }
      }
      assert r == ts;
    }
  }

  /** A spawn whose id is fresh, followed by its completion, leaves the new
      entry finished at the head and the earlier entries as they were. */
  lemma SpawnThenFinish(ts: seq<SpawnedTask>, id: string, text: string, at: int, status: SpawnStatus, result: string)
    requires id !in Ids(ts)
    ensures Finish([Started(id, text, at)] + ts, id, status, result)
            == [SpawnedTask(id, text, status, Some(result), at)] + ts
  {
    var pre := [Started(id, text, at)] + ts;
    var r := Finish(pre, id, status, result);
    forall i | 1 <= i < |pre| ensures r[i] == ts[i - 1] {
      assert pre[i] == ts[i - 1];
      assert Ids(ts)[i - 1] == ts[i - 1].id;
    }
    assert r == [SpawnedTask(id, text, status, Some(result), at)] + ts;
  }

  /** The spawn arguments: the task text, and the model only when its
      trimmed form is non-empty, in which case it is sent trimmed. */
  function SpawnArgs(text: string, model: string): (args: map<string, Value>)
    ensures "task" in args && args["task"] == Str(text)
  {
    var args := map["task" := Str(text)];
    if Strings.Trim(model) != "" then args["model" := Str(Strings.Trim(model))] else args
  }

  /** Only the task and the model are sent; the model override is sent
      exactly when the model field is not blank, and then trimmed. */
  lemma SpawnArgsModel(text: string, model: string)
    ensures SpawnArgs(text, model).Keys <= {"task", "model"}
    ensures "model" in SpawnArgs(text, model) <==> Strings.Trim(model) != ""
    ensures "model" in SpawnArgs(text, model) ==> SpawnArgs(text, model)["model"] == Str(Strings.Trim(model))
  {
  }

  /** The sessions shown: the reply itself when it is an array, else its
      `sessions` field when truthy, else the empty list. */
  function SessionsOf(data: Value): (r: Value)
    ensures data.Arr? ==> r == data
    ensures !data.Arr? && Truthy(Get(data, "sessions")) ==> r == Get(data, "sessions")
    ensures !data.Arr? && !Truthy(Get(data, "sessions")) ==> r == Arr([])
    ensures Truthy(r) || r == Arr([])
  {
    if data.Arr? then data else Or(Get(data, "sessions"), Arr([]))
  }

  // ------------------------------------------------------------ page state

  /** How a spawn's tool call ended, as the page records it: the reply
      rendered as pretty-printed JSON, or the error's message. */
  datatype Outcome = Succeeded(rendered: string) | Failed(message: string)

  class LabPage {
    var prompt: string
    var model: string
    var sending: bool
    var tasks: seq<SpawnedTask>
    var sessions: Value
    var error: string

    constructor()
      ensures prompt == "" && model == "" && !sending
      ensures tasks == [] && sessions == Arr([]) && error == ""
    {
      prompt := "";
      model := "";
      sending := false;
      tasks := [];
      sessions := Arr([]);
      error := "";
    }

    /** The first half of `spawnTask`: with a blank prompt nothing happens;
        otherwise the prompt is cleared, the error reset, a running entry
        for the trimmed prompt prepended, and the arguments of the tool
        call returned. */
    method BeginSpawn(taskId: string, startedAt: int) returns (args: Option<map<string, Value>>)
      modifies this`prompt, this`sending, this`error, this`tasks
      ensures Strings.Trim(old(prompt)) == "" ==>
        args.None? && prompt == old(prompt) && sending == old(sending) && error == old(error) && tasks == old(tasks)
      ensures Strings.Trim(old(prompt)) != "" ==>
        && args == Some(SpawnArgs(Strings.Trim(old(prompt)), model))
        && prompt == "" && sending && error == ""
        && tasks == [Started(taskId, Strings.Trim(old(prompt)), startedAt)] + old(tasks)
    {
      var text := Strings.Trim(prompt);
      if text == "" {
        return None;
      }
      sending := true;
      error := "";
      prompt := "";
      tasks := [Started(taskId, text, startedAt)] + tasks;
      args := Some(SpawnArgs(text, model));
    }

    /** The second half of `spawnTask`: the entry with the id is marked
        done with the rendered reply, or error with the message, and the
        page stops sending. `reload` says whether a session reload starts,
        which happens after a success only. */
    method FinishSpawn(taskId: string, outcome: Outcome) returns (reload: bool)
      modifies this`tasks, this`sending
      ensures reload <==> outcome.Succeeded?
      ensures !sending
      ensures outcome.Succeeded? ==> tasks == Finish(old(tasks), taskId, Done, outcome.rendered)
      ensures outcome.Failed? ==> tasks == Finish(old(tasks), taskId, Error, outcome.message)
    {
      match outcome {
        case Succeeded(rendered) => tasks := Finish(tasks, taskId, Done, rendered);
        case Failed(message) => tasks := Finish(tasks, taskId, Error, message);
      }
      reload := outcome.Succeeded?;
      sending := false;
    }

    /** `loadSessions`: the normalised session list on success, the message
        in the error banner on failure. */
    method LoadSessions(reply: Result<Value, string>)
      modifies this`sessions, this`error
      ensures reply.Ok? ==> sessions == SessionsOf(reply.value) && error == old(error)
      ensures reply.Err? ==> sessions == old(sessions) && error == reply.error
    {
      match reply
      case Ok(data) => sessions := SessionsOf(data);
      case Err(message) => error := message;
    }
  }

  /** A spawn from a fresh id, completed, leaves the page's list with the
      finished entry for the trimmed prompt at its head. */
  method SpawnRound(page: LabPage, taskId: string, startedAt: int, outcome: Outcome)
    requires taskId !in Ids(page.tasks)
    requires Strings.Trim(page.prompt) != ""
    modifies page
    ensures |page.tasks| == |old(page.tasks)| + 1
    ensures page.tasks[1..] == old(page.tasks)
    ensures page.tasks[0].id == taskId && page.tasks[0].task == Strings.Trim(old(page.prompt))
    ensures page.tasks[0].status == (if outcome.Succeeded? then Done else Error)
    ensures !page.sending && page.prompt == ""
  {
    var text := Strings.Trim(page.prompt);
    ghost var before := page.tasks;
    var args := page.BeginSpawn(taskId, startedAt);
    assert page.tasks == [Started(taskId, text, startedAt)] + before;
    var reload := page.FinishSpawn(taskId, outcome);
    var status := if outcome.Succeeded? then Done else Error;
    var result := if outcome.Succeeded? then outcome.rendered else outcome.message;
    assert page.tasks == Finish([Started(taskId, text, startedAt)] + before, taskId, status, result);
    SpawnThenFinish(before, taskId, text, startedAt, status, result);
    assert page.tasks == [SpawnedTask(taskId, text, status, Some(result), startedAt)] + before;
  }
}
