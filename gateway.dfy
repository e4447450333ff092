/** The gateway client: the two stored configuration values, the headers a
    tool call carries, how a reply to a tool call is turned into a result or
    an error, the connection test, and the arguments of a session spawn. The
    HTTP transport itself is outside the model: a reply is given as a value. */
module Gateway {
  import opened Wrappers
  import opened Json
  import Strings
  import opened BrowserStorage

  const UrlKey: string := "oc-gateway-url"
  const TokenKey: string := "oc-gateway-token"

  datatype ApiConfig = ApiConfig(baseUrl: string, token: string)

  /** A `Partial<ApiConfig>`: each field given or left undefined. */
  datatype ConfigPatch = ConfigPatch(baseUrl: Option<string>, token: Option<string>)

  // ------------------------------------------------------------ config store

  /** `localStorage.getItem(key) || ''`. */
  function ItemOrEmpty(items: map<string, string>, key: string): (v: string)
    ensures key !in items ==> v == ""
    ensures key in items ==> v == items[key]
  {
    if key in items then items[key] else ""
  }

  /** The configuration read from storage holding `items`; with no window
      (server-side rendering) both fields are empty. */
  function ReadConfig(window: Option<map<string, string>>): (c: ApiConfig)
    ensures window.None? ==> c == ApiConfig("", "")
    ensures window.Some? ==> c == ApiConfig(ItemOrEmpty(window.value, UrlKey), ItemOrEmpty(window.value, TokenKey))
  {
    match window
    case None => ApiConfig("", "")
    case Some(items) => ApiConfig(ItemOrEmpty(items, UrlKey), ItemOrEmpty(items, TokenKey))
  }

  /** `getConfig`, where a null storage stands for the absent window. */
  function GetConfig(st: LocalStorage?): (c: ApiConfig)
    reads st
    ensures c == ReadConfig(if st == null then None else Some(st.items))
  {
    if st == null then ApiConfig("", "") else ReadConfig(Some(st.items))
  }

  /** Storage after `saveConfig(patch)`: each given field written under its
      key, every other key untouched. */
  function SavedItems(items: map<string, string>, patch: ConfigPatch): (r: map<string, string>)
    ensures forall k :: k != UrlKey && k != TokenKey ==> (k in r <==> k in items)
    ensures forall k :: k in items && k != UrlKey && k != TokenKey ==> r[k] == items[k]
    ensures patch.baseUrl.Some? ==> UrlKey in r && r[UrlKey] == patch.baseUrl.value
    ensures patch.baseUrl.None? ==> (UrlKey in r <==> UrlKey in items) && (UrlKey in items ==> r[UrlKey] == items[UrlKey])
    ensures patch.token.Some? ==> TokenKey in r && r[TokenKey] == patch.token.value
    ensures patch.token.None? ==> (TokenKey in r <==> TokenKey in items) && (TokenKey in items ==> r[TokenKey] == items[TokenKey])
  {
    var withUrl := if patch.baseUrl.Some? then items[UrlKey := patch.baseUrl.value] else items;
    if patch.token.Some? then withUrl[TokenKey := patch.token.value] else withUrl
  }

  method SaveConfig(st: LocalStorage, patch: ConfigPatch)
    modifies st
    ensures st.items == SavedItems(old(st.items), patch)
  {
    if patch.baseUrl.Some? {
      st.SetItem(UrlKey, patch.baseUrl.value);
    }
    if patch.token.Some? {
      st.SetItem(TokenKey, patch.token.value);
    }
  }

  /** Saving both fields and reading back gives exactly what was saved; a
      field left out of the patch reads as it did before. */
  lemma SaveThenRead(items: map<string, string>, patch: ConfigPatch)
    ensures var after := ReadConfig(Some(SavedItems(items, patch)));
            var before := ReadConfig(Some(items));
      && after.baseUrl == patch.baseUrl.GetOr(before.baseUrl)
      && after.token == patch.token.GetOr(before.token)
  {
  }

  /** `isConfigured` and `hasToken`: a token is set. */
  predicate IsConfigured(c: ApiConfig) {
    |c.token| > 0
  }

  predicate HasToken(c: ApiConfig) {
    IsConfigured(c)
  }

  /** Whether the client counts as configured depends on the token alone,
      and after a save on the token saved, if one was. */
  lemma ConfiguredByTokenOnly(items: map<string, string>, patch: ConfigPatch, url1: string, url2: string, token: string)
    ensures IsConfigured(ApiConfig(url1, token)) == IsConfigured(ApiConfig(url2, token))
    ensures HasToken(ApiConfig(url1, token)) <==> token != ""
    ensures patch.token.Some? ==>
      (IsConfigured(ReadConfig(Some(SavedItems(items, patch)))) <==> patch.token.value != "")
  {
  }

  // ---------------------------------------------------------------- headers

  /** The headers object of a tool call, built up the way the client does:
      the content type always, the gateway address and token only when set. */
  method Headers(c: ApiConfig) returns (h: map<string, string>)
    ensures h.Keys <= {"Content-Type", "x-gateway-url", "x-gateway-token"}
    ensures "Content-Type" in h && h["Content-Type"] == "application/json"
    ensures "x-gateway-url" in h <==> c.baseUrl != ""
    ensures "x-gateway-url" in h ==> h["x-gateway-url"] == c.baseUrl
    ensures "x-gateway-token" in h <==> c.token != ""
    ensures "x-gateway-token" in h ==> h["x-gateway-token"] == c.token
  {
    h := map["Content-Type" := "application/json"];
    if c.baseUrl != "" {
      h := h["x-gateway-url" := c.baseUrl];
    }
    if c.token != "" {
      h := h["x-gateway-token" := c.token];
    }
  }

  // ------------------------------------------------------- reply unwrapping

  /** What the HTTP layer hands back: the `ok` flag, the status code, and
      the parsed JSON body. */
  datatype Reply = Reply(ok: bool, status: nat, body: Value)

  /** Why a tool call failed: an `Error` raised with the given value as its
      message, or a `null` body whose `ok` property cannot be read. */
  datatype Failure = Raised(cause: Value) | NullBody

  /** The message of a failed HTTP status. */
  function StatusMessage(status: nat): string {
    "API " + Strings.NatToString(status)
  }

  /** `data.result?.error || data.error || 'API error'`. */
  function ProxyCause(body: Value): (v: Value)
    ensures Truthy(v)
    ensures Truthy(Get(Get(body, "result"), "error")) ==> v == Get(Get(body, "result"), "error")
    ensures !Truthy(Get(Get(body, "result"), "error")) && Truthy(Get(body, "error")) ==> v == Get(body, "error")
    ensures !Truthy(Get(Get(body, "result"), "error")) && !Truthy(Get(body, "error")) ==> v == Str("API error")
  {
    Or(Or(Get(Get(body, "result"), "error"), Get(body, "error")), Str("API error"))
  }

  /** `data.result?.details ?? data.result`. */
  function Payload(body: Value): (v: Value)
    ensures !Nullish(Get(Get(body, "result"), "details")) ==> v == Get(Get(body, "result"), "details")
    ensures Nullish(Get(Get(body, "result"), "details")) ==> v == Get(body, "result")
  {
    Coalesce(Get(Get(body, "result"), "details"), Get(body, "result"))
  }

  /** A tool call through the proxy route: a failed status raises
      "API <status>", a reply whose `ok` is falsy raises its error, and a
      successful one yields the result's details when there are any and the
      result otherwise. Every raised message is a truthy value. */
  function Unwrap(reply: Reply): (r: Result<Value, Failure>)
    ensures r.Err? <==> !reply.ok || Nullish(reply.body) || !Truthy(Get(reply.body, "ok"))
    ensures !reply.ok ==> r == Err(Raised(Str(StatusMessage(reply.status))))
    ensures reply.ok && Nullish(reply.body) ==> r == Err(NullBody)
    ensures reply.ok && !Nullish(reply.body) && !Truthy(Get(reply.body, "ok")) ==>
      r == Err(Raised(ProxyCause(reply.body)))
    ensures r.Ok? ==> r.value == Payload(reply.body)
    ensures r.Err? && r.error.Raised? ==> Truthy(r.error.cause)
  {
    if !reply.ok then Err(Raised(Str(StatusMessage(reply.status))))
    else if Nullish(reply.body) then Err(NullBody)
    else if !Truthy(Get(reply.body, "ok")) then Err(Raised(ProxyCause(reply.body)))
    else Ok(Payload(reply.body))
  }

  /** A successful reply yields its details when it carries any, and its
      whole result when it does not. */
  lemma UnwrapSuccess(result: map<string, Value>, details: Value)
    requires !Nullish(details)
    ensures Unwrap(Reply(true, 200, Obj(map["ok" := Bool(true), "result" := Obj(result["details" := details])])))
            == Ok(details)
    ensures "details" !in result ==>
      Unwrap(Reply(true, 200, Obj(map["ok" := Bool(true), "result" := Obj(result)]))) == Ok(Obj(result))
  {
  }

  /** A failed status raises regardless of the body, and its message names
      the status in decimal. */
  lemma FailedStatusMessage(status: nat, body: Value)
    ensures Unwrap(Reply(false, status, body)).Err?
    ensures Strings.DecimalValue(StatusMessage(status)[4..]) == status
  {
    Strings.DecimalRoundTrip(status);
    assert StatusMessage(status)[4..] == Strings.NatToString(status);
  }

  // -------------------------------------------------------- testConnection

  /** The connection test's answer. */
  datatype Connection = Connection(ok: bool, status: Option<Value>, error: Option<Failure>)

  /** Given how the status call ended, the connection test reports success
      with the reply's `statusText` or "Connected", or failure with the
      reason; it never fails itself. */
  function TestConnection(outcome: Result<Value, Failure>): (c: Connection)
    ensures c.ok <==> outcome.Ok?
    ensures outcome.Ok? ==> c.error.None? && c.status.Some? && Truthy(c.status.value)
    ensures outcome.Ok? && Truthy(Get(outcome.value, "statusText")) ==> c.status == Some(Get(outcome.value, "statusText"))
    ensures outcome.Ok? && !Truthy(Get(outcome.value, "statusText")) ==> c.status == Some(Str("Connected"))
    ensures outcome.Err? ==> c.status.None? && c.error == Some(outcome.error)
  {
    match outcome
    case Ok(v) => Connection(true, Some(Or(Get(v, "statusText"), Str("Connected"))), None)
    case Err(e) => Connection(false, None, Some(e))
  }

  // ---------------------------------------------------------- spawnSession

  /** The arguments of a session spawn: the task, and the label only when it
      is given and non-empty. */
  function SpawnSessionArgs(task: string, sessionLabel: Option<string>): (args: map<string, Value>)
    ensures args.Keys <= {"task", "label"}
    ensures "task" in args && args["task"] == Str(task)
    ensures "label" in args <==> sessionLabel.Some? && sessionLabel.value != ""
    ensures "label" in args ==> args["label"] == Str(sessionLabel.value)
  {
    var args := map["task" := Str(task)];
    if sessionLabel.Some? && sessionLabel.value != "" then args["label" := Str(sessionLabel.value)] else args
  }
}
