/**
 * The decision logic of the backend's HTTP API module: settings read from the
 * environment and the startup key check, the CORS origin list and credentials
 * flag, the choice of chat provider, the chat messages, the reading of the
 * provider's reply, and the validation done by `/api/qa/ask`. The environment
 * is an input record, and the HTTP call to the provider is a function
 * parameter from the request sent to the reply received.
 */
module Api {
  import opened Wrappers
  import opened Text

  // ---------------------------------------------------------------- settings

  /** The environment variables the module reads: `None` when unset, `Some("")` when set to empty. */
  datatype Env = Env(
    provider: Option<string>,
    model: Option<string>,
    dashscopeKey: Option<string>,
    kimiKey: Option<string>,
    dashscopeBase: Option<string>,
    kimiBase: Option<string>,
    corsAllowOrigins: Option<string>,
    corsAllowOriginRegex: Option<string>,
    corsAllowCredentials: Option<string>)

  /** Python truthiness of an optional string: present and not empty. */
  predicate Truthy(o: Option<string>) {
    o.Some? && o.value != ""
  }

  const DefaultProvider := "dashscope"
  const FallbackModel := "qwen2.5-7b-instruct"
  const DefaultModelByProvider: map<string, string> :=
    map["dashscope" := "qwen2.5-7b-instruct", "kimi" := "kimi-k2-instruct"]
  const DefaultDashScopeBase := "https://dashscope.aliyuncs.com/compatible-mode/v1"
  const DefaultKimiBase := "https://api.moonshot.cn/v1"

  /** `PROVIDER`: the setting (default `dashscope`), lowered. */
  function ProviderOf(env: Env): string {
    Lower(env.provider.GetOr(DefaultProvider))
  }

  /** `MODEL`: the explicit setting when present, else the provider's default, else the Qwen model. */
  function ModelFor(provider: string, setting: Option<string>): (model: string)
    ensures setting.Some? ==> model == setting.value
    ensures setting.None? && provider == "kimi" ==> model == "kimi-k2-instruct"
    ensures setting.None? && provider != "kimi" ==> model == "qwen2.5-7b-instruct"
  {
    setting.GetOr(if provider in DefaultModelByProvider then DefaultModelByProvider[provider] else FallbackModel)
  }

  /** The module-level settings the request handlers use. */
  datatype Settings = Settings(
    provider: string,
    model: string,
    dashscopeKey: Option<string>,
    kimiKey: Option<string>,
    dashscopeBase: string,
    kimiBase: string)

  function SettingsOf(env: Env): Settings {
    var provider := ProviderOf(env);
    Settings(provider, ModelFor(provider, env.model), env.dashscopeKey, env.kimiKey,
             env.dashscopeBase.GetOr(DefaultDashScopeBase), env.kimiBase.GetOr(DefaultKimiBase))
  }

  /** Startup refuses to run, naming the missing variable, when the selected provider has no key. */
  datatype StartupError = MissingKey(name: string)

  /** The settings, or the startup failure for a selected provider whose key is unset or empty. */
  function Startup(env: Env): (r: Result<Settings, StartupError>)
    ensures r.Err? <==>
      (ProviderOf(env) == "dashscope" && !Truthy(env.dashscopeKey)) ||
      (ProviderOf(env) == "kimi" && !Truthy(env.kimiKey))
    ensures r.Err? && ProviderOf(env) == "dashscope" ==> r.error == MissingKey("DASHSCOPE_API_KEY")
    ensures r.Err? && ProviderOf(env) == "kimi" ==> r.error == MissingKey("KIMI_API_KEY")
    ensures r.Ok? ==> r.value == SettingsOf(env)
    ensures r.Ok? && r.value.provider == "dashscope" ==> Truthy(r.value.dashscopeKey)
    ensures r.Ok? && r.value.provider == "kimi" ==> Truthy(r.value.kimiKey)
  {
    var provider := ProviderOf(env);
    if provider == "dashscope" && !Truthy(env.dashscopeKey) then Err(MissingKey("DASHSCOPE_API_KEY"))
    else if provider == "kimi" && !Truthy(env.kimiKey) then Err(MissingKey("KIMI_API_KEY"))
    else Ok(SettingsOf(env))
  }

  // ---------------------------------------------------------------- CORS

  const DefaultAllowOrigins := "http://localhost:5173,http://localhost:3000"
  const DefaultAllowCredentials := "true"
  const CredentialsOn: set<string> := {"1", "true", "yes"}

  /** The CORS configuration handed to the middleware. */
  datatype Cors = Cors(origins: seq<string>, originRegex: Option<string>, allowCredentials: bool)

  /** The comma-separated origin setting: every piece stripped, blank pieces dropped, order kept. */
  function ParseOrigins(setting: string): (origins: seq<string>)
    ensures forall o :: o in origins ==> o != [] && IsStripped(o) && ',' !in o
  {
    var pieces := SplitOn(setting, ',');
    SplitOnSound(setting, ',');
    var origins := KeepStripped(pieces);
    KeepStrippedSound(pieces);
    assert forall o :: o in origins ==> ',' !in o by {
      forall o | o in origins ensures ',' !in o {
        var p :| p in pieces && Strip(p) == o;
        StripAvoids(p, ',');
      }
    }
    origins
  }

  /** Reads the three CORS variables; a lone `*` origin switches credentials off. */
  method ConfigureCors(env: Env) returns (cors: Cors)
    ensures cors.origins == ParseOrigins(env.corsAllowOrigins.GetOr(DefaultAllowOrigins))
    ensures cors.allowCredentials <==>
      Lower(env.corsAllowCredentials.GetOr(DefaultAllowCredentials)) in CredentialsOn && cors.origins != ["*"]
    ensures cors.originRegex.Some? <==> Truthy(env.corsAllowOriginRegex)
    ensures cors.originRegex.Some? ==> cors.originRegex == env.corsAllowOriginRegex
  {
    var originsSetting := env.corsAllowOrigins.GetOr(DefaultAllowOrigins);
    var credentialsSetting := Lower(env.corsAllowCredentials.GetOr(DefaultAllowCredentials));
    var allowCredentials := credentialsSetting in CredentialsOn;
    var origins := ParseOrigins(originsSetting);
    if |origins| == 1 && origins[0] == "*" {
      allowCredentials := false;
    }
    var originRegex := if Truthy(env.corsAllowOriginRegex) then env.corsAllowOriginRegex else None;
    cors := Cors(origins, originRegex, allowCredentials);
  }

  /** Clean origins joined with commas parse back to themselves. */
  lemma ParseOriginsJoin(origins: seq<string>)
    requires forall o :: o in origins ==> o != [] && IsStripped(o) && ',' !in o
    ensures ParseOrigins(Join(origins, ",")) == origins
  {
    if origins == [] {
      assert SplitOn("", ',') == [""];
    } else {
      SplitOnJoin(origins, ',');
      KeepStrippedClean(origins);
    }
  }

  /** Parsing distributes over a comma: the pieces on either side keep their order. */
  lemma ParseOriginsAppend(a: string, b: string)
    ensures ParseOrigins(a + "," + b) == ParseOrigins(a) + ParseOrigins(b)
  {
    assert a + "," + b == a + [','] + b;
    SplitOnAppend(a, b, ',');
    KeepStrippedAppend(SplitOn(a, ','), SplitOn(b, ','));
  }

  /**
   * A comma-free setting is one origin, stripped, or none when it is blank.
   * With `ParseOriginsAppend` this determines the origins of every setting:
   * each non-blank comma piece, stripped, in order.
   */
  lemma ParseOriginsPiece(piece: string)
    requires ',' !in piece
    ensures ParseOrigins(piece) == if AllSpace(piece) then [] else [Strip(piece)]
  {
    forall j | 0 <= j < |piece| ensures piece[j] != ',' {
      assert piece[j] in piece;
    }
    IndexOfUnique(piece, ',', |piece|);
    assert piece[..|piece|] == piece;
    assert SplitOn(piece, ',') == [piece];
    KeepStrippedOne(piece);
  }

  /** Re-joining a parsed list and parsing again changes nothing. */
  lemma ParseOriginsIdempotent(setting: string)
    ensures ParseOrigins(Join(ParseOrigins(setting), ",")) == ParseOrigins(setting)
  {
    ParseOriginsJoin(ParseOrigins(setting));
  }

  /** A lone `*` setting parses to the single wildcard origin `["*"]`. */
  lemma WildcardAlone()
    ensures ParseOrigins("*") == ["*"]
  {
    var star := "*";
    assert IsStripped(star) by {
      assert !IsSpace('*');
    }
    ParseOriginsJoin([star]);
    assert Join([star], ",") == star;
  }

  /** A `*` in front of other origins leaves more than one origin, so credentials are not switched off. */
  lemma WildcardAmongOthers(others: string)
    requires ParseOrigins(others) != []
    ensures ParseOrigins("*" + "," + others) == ["*"] + ParseOrigins(others)
    ensures ParseOrigins("*" + "," + others) != ["*"]
  {
    ParseOriginsAppend("*", others);
    WildcardAlone();
  }

  /** Two clean origins separated by a comma parse to those two origins. */
  lemma TwoOrigins(a: string, b: string)
    requires a != [] && IsStripped(a) && ',' !in a
    requires b != [] && IsStripped(b) && ',' !in b
    ensures ParseOrigins(a + "," + b) == [a, b]
  {
    ParseOriginsJoin([a, b]);
    assert Join([a, b], ",") == a + "," + b;
  }

  /** The default setting is the two local development origins joined by a comma. */
  lemma LocalOriginsJoined()
    ensures "http://localhost:5173" + "," + "http://localhost:3000" == DefaultAllowOrigins
  {
  }

  /** The two local development origins are clean, so their comma-joined form parses back to them. */
  lemma LocalOrigins()
    ensures ParseOrigins("http://localhost:5173" + "," + "http://localhost:3000") == ["http://localhost:5173", "http://localhost:3000"]
  {
    var a, b := "http://localhost:5173", "http://localhost:3000";
    assert a[0] == 'h' && a[|a| - 1] == '3';
    assert b[0] == 'h' && b[|b| - 1] == '0';
    TwoOrigins(a, b);
  }

  /** With nothing set, the two local development origins are allowed, with credentials. */
  lemma DefaultOrigins()
    ensures ParseOrigins(DefaultAllowOrigins) == ["http://localhost:5173", "http://localhost:3000"]
  {
    LocalOriginsJoined();
    LocalOrigins();
  }

  /** With nothing set, credentials are allowed; the setting is read case-insensitively. */
  lemma DefaultCredentials()
    ensures Lower(DefaultAllowCredentials) in CredentialsOn
    ensures Lower("TRUE") in CredentialsOn && Lower("Yes") in CredentialsOn
    ensures Lower("false") !in CredentialsOn && Lower("") !in CredentialsOn
  {
    assert Lower(DefaultAllowCredentials) == "true";
    assert Lower("TRUE") == "true";
    assert Lower("Yes") == "yes";
    assert Lower("false") == "false";
  }

  // ---------------------------------------------------------------- provider dispatch

  /** The chat-completions URL and the `Authorization` header sent with it. */
  datatype Endpoint = Endpoint(url: string, authorization: string)

  /** JSON values as the provider's reply carries them (numbers limited to integers). */
  datatype Json =
    | JNull
    | JBool(b: bool)
    | JNumber(n: int)
    | JString(s: string)
    | JArray(items: seq<Json>)
    | JObject(fields: map<string, Json>)

  /** Errors a request can end in: an `HTTPException`, the unexpected-reply one, or an uncaught exception. */
  datatype ApiError =
    | HttpError(status: int, detail: string)
    | UnexpectedResponse(data: Json)
    | InternalError

  /** The status code the client receives for an error. */
  function StatusOf(e: ApiError): int {
    match e
    case HttpError(status, _) => status
    case UnexpectedResponse(_) => 500
    case InternalError => 500
  }

  const ChatPath := "/chat/completions"

  /** Python's f-string rendering of an optional string. */
  function Render(o: Option<string>): string {
    o.GetOr("None")
  }

  /** The endpoint of the selected provider; any other provider is a 500. */
  function Dispatch(s: Settings): (r: Result<Endpoint, ApiError>)
    ensures r.Ok? <==> s.provider == "dashscope" || s.provider == "kimi"
    ensures r.Err? ==> r.error == HttpError(500, "Unsupported provider: " + s.provider)
    ensures r.Ok? && s.provider == "dashscope" ==>
      r.value == Endpoint(s.dashscopeBase + ChatPath, "Bearer " + Render(s.dashscopeKey))
    ensures r.Ok? && s.provider == "kimi" ==>
      r.value == Endpoint(s.kimiBase + ChatPath, "Bearer " + Render(s.kimiKey))
  {
    if s.provider == "dashscope" then
      Ok(Endpoint(s.dashscopeBase + ChatPath, "Bearer " + Render(s.dashscopeKey)))
    else if s.provider == "kimi" then
      Ok(Endpoint(s.kimiBase + ChatPath, "Bearer " + Render(s.kimiKey)))
    else
      Err(HttpError(500, "Unsupported provider: " + s.provider))
  }

  /** Once startup has succeeded, a known provider always yields an endpoint carrying a real key. */
  lemma StartupThenDispatch(env: Env)
    requires Startup(env).Ok?
    requires ProviderOf(env) == "dashscope" || ProviderOf(env) == "kimi"
    ensures Dispatch(Startup(env).value).Ok?
    ensures exists key :: key != "" && Dispatch(Startup(env).value).value.authorization == "Bearer " + key
  {
    var s := Startup(env).value;
    var key := if s.provider == "dashscope" then s.dashscopeKey.value else s.kimiKey.value;
    assert Dispatch(s).value.authorization == "Bearer " + key;
  }

  /**
   * An unknown provider passes the startup check, and dispatch then fails with a 500
   * naming it, so every non-blank question ends in that 500.
   */
  lemma UnknownProviderStarts(env: Env)
    requires ProviderOf(env) != "dashscope" && ProviderOf(env) != "kimi"
    ensures Startup(env).Ok?
    ensures Dispatch(Startup(env).value) == Err(HttpError(500, "Unsupported provider: " + ProviderOf(env)))
    ensures Startup(env).value.model == "qwen2.5-7b-instruct" || env.model.Some?
  {
  }

  /** An environment with nothing set selects DashScope and so fails for want of its key. */
  lemma EmptyEnvironment()
    ensures Startup(Env(None, None, None, None, None, None, None, None, None)) == Err(MissingKey("DASHSCOPE_API_KEY"))
  {
    assert Lower("dashscope") == "dashscope";
  }

  /** The provider setting is case-insensitive. */
  lemma ProviderCaseInsensitive(env: Env, p: string)
    requires env.provider == Some(p)
    ensures ProviderOf(env) == ProviderOf(env.(provider := Some(Lower(p))))
  {
    LowerIdempotent(p);
  }

  // ---------------------------------------------------------------- messages

  datatype Role = System | User

  /** One chat message. */
  datatype Message = Message(role: Role, content: string)

  /** The message list: the context as a system message when it is truthy, then the question. */
  method AssembleMessages(question: string, context: Option<string>) returns (messages: seq<Message>)
    ensures |messages| >= 1 && messages[|messages| - 1] == Message(User, question)
    ensures |messages| == 2 <==> Truthy(context)
    ensures |messages| <= 2
    ensures Truthy(context) ==> messages[0] == Message(System, context.value)
  {
    messages := [];
    if Truthy(context) {
      messages := messages + [Message(System, context.value)];
    }
    messages := messages + [Message(User, question)];
  }

  // ---------------------------------------------------------------- the provider's reply

  /** The provider's HTTP reply: status, body text, and the body parsed as JSON when it parses. */
  datatype Reply = Reply(status: int, text: string, json: Option<Json>)

  /** `data[key]` on a JSON object; any other value, or a missing key, raises. */
  function Member(data: Json, key: string): (r: Option<Json>)
    ensures r.Some? <==> data.JObject? && key in data.fields
    ensures r.Some? ==> r.value == data.fields[key]
  {
    if data.JObject? && key in data.fields then Some(data.fields[key]) else None
  }

  /** `data[0]`: the first item of an array or the first character of a string; anything else raises. */
  function First(data: Json): (r: Option<Json>)
    ensures r.Some? <==> (data.JArray? && data.items != []) || (data.JString? && data.s != [])
    ensures r.Some? && data.JArray? ==> r.value == data.items[0]
    ensures r.Some? && data.JString? ==> r.value == JString([data.s[0]])
  {
    match data
    case JArray(items) => if items != [] then Some(items[0]) else None
    case JString(s) =>
      if s != [] then
        assert s[..1] == [s[0]];
        Some(JString(s[..1]))
      else None
    case _ => None
  }

  /**
   * `data` is an object whose `choices` is a non-empty array, whose first item is an
   * object holding a `message` object, which holds `content`. A string `choices`
   * does not qualify: indexing its first character by `message` raises.
   */
  predicate ChatShaped(data: Json) {
    data.JObject? && "choices" in data.fields &&
    var choices := data.fields["choices"];
    choices.JArray? && choices.items != [] &&
    var choice := choices.items[0];
    choice.JObject? && "message" in choice.fields &&
    var message := choice.fields["message"];
    message.JObject? && "content" in message.fields
  }

  /** `data["choices"][0]["message"]["content"]`, or `None` where Python would raise. */
  function ChoiceContent(data: Json): (r: Option<Json>)
    ensures r.Some? <==> ChatShaped(data)
    ensures r.Some? ==> r.value == data.fields["choices"].items[0].fields["message"].fields["content"]
  {
    var choices := Member(data, "choices");
    if choices.None? then None else
    var choice := First(choices.value);
    if choice.None? then None else
    var message := Member(choice.value, "message");
    if message.None? then None else
    Member(message.value, "content")
  }

  /** The smallest well-formed chat-completion reply whose answer is `content`. */
  function ChatReply(content: Json): Json {
    JObject(map["choices" := JArray([JObject(map["message" := JObject(map["content" := content])])])])
  }

  /** Reading the reply: a non-200 is passed on, a 200 yields the first choice's content or a 500. */
  function Interpret(reply: Reply): (r: Result<Json, ApiError>)
    ensures reply.status != 200 ==> r == Err(HttpError(reply.status, reply.text))
    ensures r.Ok? <==> reply.status == 200 && reply.json.Some? && ChoiceContent(reply.json.value).Some?
    ensures r.Ok? ==> Some(r.value) == ChoiceContent(reply.json.value)
    ensures r.Err? && reply.status == 200 ==> StatusOf(r.error) == 500
  {
    if reply.status != 200 then Err(HttpError(reply.status, reply.text))
    else if reply.json.None? then Err(InternalError)
    else
      var content := ChoiceContent(reply.json.value);
      if content.Some? then Ok(content.value) else Err(UnexpectedResponse(reply.json.value))
  }

  /** A well-formed 200 reply yields exactly the content it carries. */
  lemma InterpretChatReply(content: Json, text: string)
    ensures Interpret(Reply(200, text, Some(ChatReply(content)))) == Ok(content)
  {
    var message := JObject(map["content" := content]);
    var choice := JObject(map["message" := message]);
    assert Member(ChatReply(content), "choices") == Some(JArray([choice]));
    assert First(JArray([choice])) == Some(choice);
    assert Member(choice, "message") == Some(message);
    assert Member(message, "content") == Some(content);
  }

  /** Replies that lack the expected shape are a 500 whose error carries the parsed body. */
  lemma MalformedReplies(text: string)
    ensures Interpret(Reply(200, text, Some(JObject(map[])))) == Err(UnexpectedResponse(JObject(map[])))
    ensures Interpret(Reply(200, text, Some(JObject(map["choices" := JArray([])])))).Err?
    ensures Interpret(Reply(200, text, None)) == Err(InternalError)
  {
    assert Member(JObject(map["choices" := JArray([])]), "choices") == Some(JArray([]));
  }

  // ---------------------------------------------------------------- /api/qa/ask

  /** The body of `/api/qa/ask`; `stream` is accepted and not used. */
  datatype AskRequest = AskRequest(question: string, context: Option<string>, sessionId: Option<string>, stream: bool)

  datatype AskResponse = AskResponse(answer: string, sessionId: Option<string>)

  /** The request sent to the provider (its `temperature`, a float, is not modelled). */
  datatype ChatRequest = ChatRequest(url: string, authorization: string, model: string, messages: seq<Message>, stream: bool)

  const QuestionRequired := "question is required"

  /** An empty or whitespace-only question is a 400; any other is passed on stripped. */
  function ValidateQuestion(question: string): (r: Result<string, ApiError>)
    ensures r.Err? <==> AllSpace(question)
    ensures r.Err? ==> r.error == HttpError(400, QuestionRequired)
    ensures r.Ok? ==> r.value != [] && IsStripped(r.value) && r.value == Strip(question)
  {
    var stripped := Strip(question);
    StripSound(question);
    if question == [] || stripped == [] then Err(HttpError(400, QuestionRequired)) else Ok(stripped)
  }

  /** Validating an already stripped question gives the same outcome. */
  lemma ValidateStripped(question: string)
    ensures ValidateQuestion(Strip(question)) == ValidateQuestion(question)
  {
    var s := Strip(question);
    StripSound(question);
    StripSound(s);
    if s != [] {
      assert !IsSpace(s[0]);
      assert !AllSpace(s);
    }
  }

  /** `call_chat_completion`: pick the endpoint, build the messages, post once and read the reply. */
  method CallChatCompletion(s: Settings, question: string, context: Option<string>, post: ChatRequest -> Reply)
    returns (r: Result<Json, ApiError>, sent: seq<ChatRequest>)
    ensures Dispatch(s).Err? ==> r == Err(Dispatch(s).error) && sent == []
    ensures Dispatch(s).Ok? ==> |sent| == 1 && r == Interpret(post(sent[0]))
    ensures Dispatch(s).Ok? ==>
      sent[0].url == Dispatch(s).value.url && sent[0].authorization == Dispatch(s).value.authorization &&
      sent[0].model == s.model && !sent[0].stream
    ensures Dispatch(s).Ok? ==>
      var m := sent[0].messages;
      |m| >= 1 && m[|m| - 1] == Message(User, question) &&
      (Truthy(context) ==> m == [Message(System, context.value), Message(User, question)]) &&
      (!Truthy(context) ==> m == [Message(User, question)])
  {
    var endpoint := Dispatch(s);
    if endpoint.Err? {
      return Err(endpoint.error), [];
    }
    var messages := AssembleMessages(question, context);
    var request := ChatRequest(endpoint.value.url, endpoint.value.authorization, s.model, messages, false);
    sent := [request];
    r := Interpret(post(request));
  }

  /** `qa_ask`: validate, ask the provider with the stripped question, and answer with its text. */
  method QaAsk(s: Settings, body: AskRequest, post: ChatRequest -> Reply)
    returns (r: Result<AskResponse, ApiError>, sent: seq<ChatRequest>)
    ensures AllSpace(body.question) ==> r == Err(HttpError(400, QuestionRequired)) && sent == []
    ensures !AllSpace(body.question) && Dispatch(s).Err? ==> r == Err(Dispatch(s).error) && sent == []
    ensures !AllSpace(body.question) && Dispatch(s).Ok? ==>
      var q := Strip(body.question);
      var endpoint := Dispatch(s).value;
      q != [] && |sent| == 1 &&
      sent[0] == ChatRequest(endpoint.url, endpoint.authorization, s.model,
        (if Truthy(body.context) then [Message(System, body.context.value)] else []) + [Message(User, q)], false)
    ensures |sent| <= 1
    ensures |sent| == 1 ==>
      var reply := Interpret(post(sent[0]));
      (reply.Err? ==> r == Err(reply.error)) &&
      (reply.Ok? && reply.value.JString? ==> r == Ok(AskResponse(reply.value.s, body.sessionId))) &&
      (reply.Ok? && !reply.value.JString? ==> r == Err(InternalError))
    ensures r.Ok? ==> |sent| == 1 && Interpret(post(sent[0])) == Ok(JString(r.value.answer))
    ensures r.Ok? ==> r.value.sessionId == body.sessionId
  {
    var question := ValidateQuestion(body.question);
    if question.Err? {
      return Err(question.error), [];
    }
    var answer;
    answer, sent := CallChatCompletion(s, question.value, body.context, post);
    if answer.Err? {
      return Err(answer.error), sent;
    }
    if !answer.value.JString? {
      return Err(InternalError), sent;
    }
    r := Ok(AskResponse(answer.value.s, body.sessionId));
  }
}
