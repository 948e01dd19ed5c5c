/**
 * The chat endpoint: it validates the request, builds the transcript sent to
 * the Ollama chat API (system prompt with the dynamic context, the earlier
 * turns, the new user message), and answers with the upstream stream, an
 * upstream error or a local error.
 *
 * The parsed request body, the upstream answer and the context service's
 * inputs are parameters; the upstream stream is passed through as text.
 */
module ChatRoute {
  import opened Wrappers
  import opened Strings
  import opened Http
  import AssistantContext

  /** A JSON value as `req.json()` yields it. */
  datatype Json =
    | JNull
    | JBool(b: bool)
    | JNum(n: real)
    | JStr(s: string)
    | JArr(items: seq<Json>)
    | JObj(fields: map<string, Json>)

  /** JavaScript truthiness of a property read; `None` is `undefined`. */
  predicate Truthy(v: Option<Json>)
  {
    match v
    case None => false
    case Some(j) =>
      match j
      case JNull => false
      case JBool(b) => b
      case JNum(n) => n != 0.0
      case JStr(s) => s != ""
      case _ => true
    }

  /** `j.key` on a non-null value: the member of an object, `undefined` otherwise. */
  function Field(j: Json, key: string): (v: Option<Json>)
    ensures v.Some? <==> j.JObj? && key in j.fields
    ensures v.Some? ==> v.value == j.fields[key]
  {
    if j.JObj? && key in j.fields then Some(j.fields[key]) else None
  }

  /** One chat message; a role or content read as `undefined` is left out when serialised. */
  datatype Msg = Msg(role: Option<Json>, content: Option<Json>)

  /** The JSON body of the upstream request; the sampling options are constant and not modelled. */
  datatype ChatBody = ChatBody(model: string, messages: seq<Msg>, stream: bool)

  datatype UpstreamRequest = UpstreamRequest(url: string, headers: map<string, string>, body: ChatBody)

  datatype ReplyBody = ErrorJson(error: string) | Piped(stream: string)

  datatype Reply = Reply(status: int, contentType: string, body: ReplyBody)

  const Model := "gpt-oss:20b-cloud"
  const DefaultApiUrl := "https://ollama.com/api/chat"
  const ApiUrlVar := "NEXT_PUBLIC_OLLAMA_API_KEY_API_URL"
  const ApiKeyVar := "NEXT_NEXT_PUBLIC_OLLAMA_API_KEY"
  const JsonType := "application/json"
  const StreamType := "text/plain; charset=utf-8"

  const MissingMessage := Reply(400, JsonType, ErrorJson("Message is required"))
  const ServerError := Reply(500, JsonType, ErrorJson("Internal server error"))

  // ---------------------------------------------------------------------------
  // The transcript

  /** `Array.isArray(history) ? history : []`. */
  function History(request: Json): (hist: seq<Json>)
    ensures Field(request, "history").Some? && Field(request, "history").value.JArr? ==> hist == Field(request, "history").value.items
    ensures !(Field(request, "history").Some? && Field(request, "history").value.JArr?) ==> hist == []
  {
    match Field(request, "history")
    case Some(JArr(items)) => items
    case _ => []
  }

  /** No history entry is `null` (reading `.role` of `null` throws). */
  predicate NullFree(hist: seq<Json>)
  {
    forall k :: 0 <= k < |hist| ==> hist[k] != JNull
  }

  /** `{ role: h.role, content: h.content }`: only the role and the content of an entry are kept. */
  function HistoryMsg(h: Json): (m: Msg)
    requires h != JNull
    ensures m.role == Field(h, "role") && m.content == Field(h, "content")
  {
    Msg(Field(h, "role"), Field(h, "content"))
  }

  /** `hist.map(...)`. */
  function HistoryMsgs(hist: seq<Json>): (msgs: seq<Msg>)
    requires NullFree(hist)
    ensures |msgs| == |hist|
    ensures forall k :: 0 <= k < |hist| ==> msgs[k] == HistoryMsg(hist[k])
  {
    if hist == [] then [] else [HistoryMsg(hist[0])] + HistoryMsgs(hist[1..])
  }

  /** The system prompt followed by a blank line and the dynamic context. */
  function SystemContent(prompt: string, context: string): (s: string)
    ensures |s| == |prompt| + 2 + |context|
    ensures s[..|prompt|] == prompt && s[|prompt|..|prompt| + 2] == "\n\n" && s[|prompt| + 2..] == context
  {
    prompt + "\n\n" + context
  }

  /** `[system, ...history, user]`. */
  function Transcript(system: string, hist: seq<Json>, message: Json): (msgs: seq<Msg>)
    requires NullFree(hist)
    ensures |msgs| == |hist| + 2
    ensures msgs[0] == Msg(Some(JStr("system")), Some(JStr(system)))
    ensures msgs[|msgs| - 1] == Msg(Some(JStr("user")), Some(message))
    ensures msgs[1..|msgs| - 1] == HistoryMsgs(hist)
    ensures forall k :: 0 <= k < |hist| ==> msgs[k + 1] == HistoryMsg(hist[k])
  {
    [Msg(Some(JStr("system")), Some(JStr(system)))] + HistoryMsgs(hist) + [Msg(Some(JStr("user")), Some(message))]
  }

  /** The earlier turns keep their order: the roles of the transcript's middle are the history's roles. */
  lemma {:induction false} TranscriptRoles(system: string, hist: seq<Json>, message: Json)
    requires NullFree(hist)
    ensures var msgs := Transcript(system, hist, message);
            forall k :: 0 <= k < |hist| ==> msgs[k + 1].role == Field(hist[k], "role") && msgs[k + 1].content == Field(hist[k], "content")
  {
    var msgs := Transcript(system, hist, message);
    forall k | 0 <= k < |hist|
      ensures msgs[k + 1].role == Field(hist[k], "role") && msgs[k + 1].content == Field(hist[k], "content")
    {
      assert msgs[k + 1] == HistoryMsg(hist[k]);
    }
  }

  // ---------------------------------------------------------------------------
  // The upstream request and the reply

  /** The upstream headers, filled in place: the content type, and a bearer credential when the API key is set. */
  method ChatHeaders(env: Env) returns (h: map<string, string>)
    ensures "Content-Type" in h && h["Content-Type"] == JsonType
    ensures "Authorization" in h <==> EnvSet(env, ApiKeyVar)
    ensures "Authorization" in h ==> h["Authorization"] == "Bearer " + env[ApiKeyVar]
    ensures h.Keys <= {"Content-Type", "Authorization"}
  {
    h := map["Content-Type" := JsonType];
    if EnvSet(env, ApiKeyVar) {
      h := h["Authorization" := "Bearer " + env[ApiKeyVar]];
    }
  }

  /**
   * A status the error reply can carry. `NextResponse.json` builds a response
   * with a body: a status outside 200..599 makes it throw a `RangeError`, and
   * a null-body status makes it throw a `TypeError`. Of the null-body statuses
   * (101, 103, 204, 205, 304) only 304 is not OK and inside 200..599.
   */
  predicate ResponseStatus(status: int)
  {
    200 <= status <= 599 && status != 304
  }

  /**
   * The reply for the upstream outcome: the stream as it came on success
   * (with status 200), the upstream status with an error message otherwise,
   * and the internal error when the call throws.
   */
  function UpstreamReply(res: Fetch<string>): (r: Reply)
    ensures r.status == 200 <==> res.Responded? && IsOk(res.status)
    ensures res.Responded? && IsOk(res.status) ==> r == Reply(200, StreamType, Piped(res.body))
    ensures res.Responded? && !IsOk(res.status) && ResponseStatus(res.status) ==> r == Reply(res.status, JsonType, ErrorJson("Ollama API error: " + IntToString(res.status) + " " + res.statusText))
    ensures res.Threw? || (!IsOk(res.status) && !ResponseStatus(res.status)) ==> r == ServerError
    ensures res.Responded? && res.status == 304 ==> r == ServerError
  {
    match res
    case Threw(_) => ServerError
    case Responded(status, text, body) =>
      if !IsOk(status) then
        if ResponseStatus(status) then Reply(status, JsonType, ErrorJson("Ollama API error: " + IntToString(status) + " " + text))
        else ServerError
      else Reply(200, StreamType, Piped(body))
  }

  // ---------------------------------------------------------------------------
  // POST

  /** The request can be destructured: it parsed, and it is not `null`. */
  predicate Destructurable(request: Option<Json>)
  {
    request.Some? && request.value != JNull
  }

  /** The request gets past validation: it can be destructured and its message is truthy. */
  predicate Accepted(request: Option<Json>)
  {
    Destructurable(request) && Truthy(Field(request.value, "message"))
  }

  /**
   * `POST(req)`. `request` is the parsed body (`None` when it is not JSON),
   * `prompt` the fixed system prompt, `now` and `later` the clock readings of
   * the context service, and `upstream` the answer of the chat API. `sent` is
   * the upstream request when one is made.
   */
  method Post(svc: AssistantContext.ContextService, request: Option<Json>, env: Env, prompt: string,
              now: int, later: int, src: AssistantContext.ContextSources, upstream: Fetch<string>)
    returns (reply: Reply, sent: Option<UpstreamRequest>)
    modifies svc
    ensures !Destructurable(request) ==> reply == ServerError && sent.None? && svc.cache == old(svc.cache)
    ensures Destructurable(request) && !Accepted(request) ==> reply == MissingMessage && sent.None? && svc.cache == old(svc.cache)
    ensures Accepted(request) ==> svc.cache == AssistantContext.CacheAfter(old(svc.cache), now, later, env, src)
    ensures Accepted(request) && !NullFree(History(request.value)) ==> reply == ServerError && sent.None?
    ensures Accepted(request) && NullFree(History(request.value)) ==>
              && sent.Some?
              && sent.value.url == EnvOr(env, ApiUrlVar, DefaultApiUrl)
              && sent.value.body == ChatBody(
                   Model,
                   Transcript(SystemContent(prompt, AssistantContext.ServedValue(old(svc.cache), now, env, src)),
                              History(request.value), Field(request.value, "message").value),
                   true)
              && "Content-Type" in sent.value.headers && sent.value.headers["Content-Type"] == JsonType
              && ("Authorization" in sent.value.headers <==> EnvSet(env, ApiKeyVar))
              && ("Authorization" in sent.value.headers ==> sent.value.headers["Authorization"] == "Bearer " + env[ApiKeyVar])
              && sent.value.headers.Keys <= {"Content-Type", "Authorization"}
              && reply == UpstreamReply(upstream)
  {
    if request.None? || request.value == JNull {
      return ServerError, None;
    }
    var body := request.value;
    var message := Field(body, "message");
    if !Truthy(message) {
      return MissingMessage, None;
    }
    var url := EnvOr(env, ApiUrlVar, DefaultApiUrl);
    var context := svc.BuildAssistantDynamicContext(now, later, env, src);
    var hist := History(body);
    if !NullFree(hist) {
      return ServerError, None;
    }
    var msgs := Transcript(SystemContent(prompt, context), hist, message.value);
    var headers := ChatHeaders(env);
    sent := Some(UpstreamRequest(url, headers, ChatBody(Model, msgs, true)));
    reply := UpstreamReply(upstream);
  }
}
