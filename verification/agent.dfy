/** agent.py: the GitHub Models client. Its configuration, the request it
    builds for a prompt, and how it turns the HTTP reply, or the failure to
    get one, into a text or an error. */
module Agent {
  import opened Wrappers
  import opened Strings

  // ---------------------------------------------------------------- JSON values

  /** A decoded JSON value (`resp.json()`); numbers are integers here. */
  datatype Json =
    | JNull
    | JBool(b: bool)
    | JNum(n: int)
    | JStr(s: string)
    | JArr(items: seq<Json>)
    | JObj(fields: map<string, Json>)

  /** Python truthiness of the decoded value, as `or` and `not` see it. */
  predicate Truthy(v: Json) {
    match v
    case JNull => false
    case JBool(b) => b
    case JNum(n) => n != 0
    case JStr(s) => s != ""
    case JArr(items) => |items| > 0
    case JObj(fields) => |fields| > 0
  }

  /** `d.get(key)` on a decoded object: `None` (here `JNull`) when the key is absent. */
  function Get(fields: map<string, Json>, key: string): (v: Json)
    ensures key in fields ==> v == fields[key]
    ensures key !in fields ==> v == JNull
  {
    if key in fields then fields[key] else JNull
  }

  // ---------------------------------------------------------------- configuration

  const DefaultUrl := "https://models.github.ai"
  /** `str(HttpUrl(url))`: the URL type adds the root path `/`. */
  const DefaultApiBase := "https://models.github.ai/"
  const DefaultTimeout: real := 120.0

  /** `AVAILABLE_MODELS`, in display order. */
  const AvailableModels: seq<string> := [
    "openai/gpt-4.1", "openai/gpt-4", "openai/gpt-4-turbo", "openai/gpt-4o", "openai/gpt-4o-mini",
    "deepseek/DeepSeek-R1", "deepseek/DeepSeek-R1-0528",
    "anthropic/claude-3-5-sonnet", "anthropic/claude-3-opus", "anthropic/claude-3-sonnet", "anthropic/claude-3-haiku",
    "mistralai/codestral-latest", "meta/llama-3-70b-instruct", "meta/llama-3-8b-instruct",
    "mistralai/mixtral-8x7b-instruct"]

  /** The client's fields; `apiBase` is held as the text `str(self.api_base)`. */
  datatype Client = Client(url: string, model: string, apiBase: string, timeout: real, token: string,
                           availableModels: seq<string>)

  /** The field constraint the model declares: the timeout is strictly positive. */
  predicate Valid(c: Client) {
    c.timeout > 0.0
  }

  /** One field a validation refuses: a base URL the `HttpUrl` type rejects,
      or a timeout that is not positive. */
  datatype FieldError = RejectedApiBase(apiBase: string) | NonPositiveTimeout(timeout: real)

  /** Why construction or a checked update is refused: pydantic's
      `ValidationError`, which lists every field that failed. */
  datatype ConfigError = ValidationError(errors: seq<FieldError>)

  /** Whether the `HttpUrl` type accepts a text as a URL (pydantic's URL
      parser, which is not part of this model). */
  type UrlCheck = string -> bool

  /** The fields a validation refuses among the values given, in declaration
      order; an absent value is not checked. */
  function FieldErrors(apiBase: Option<string>, timeout: Option<real>, acceptsUrl: UrlCheck): (errors: seq<FieldError>)
    ensures apiBase.Some? && !acceptsUrl(apiBase.value) ==> RejectedApiBase(apiBase.value) in errors
    ensures timeout.Some? && timeout.value <= 0.0 ==> NonPositiveTimeout(timeout.value) in errors
    ensures forall e :: e in errors ==>
              || (e.RejectedApiBase? && apiBase == Some(e.apiBase) && !acceptsUrl(e.apiBase))
              || (e.NonPositiveTimeout? && timeout == Some(e.timeout) && e.timeout <= 0.0)
  {
    (if apiBase.Some? && !acceptsUrl(apiBase.value) then [RejectedApiBase(apiBase.value)] else [])
    + (if timeout.Some? && timeout.value <= 0.0 then [NonPositiveTimeout(timeout.value)] else [])
  }

  /** Constructing the client: `model` and `token` are required, `api_base`
      and `timeout` have defaults. A given base the URL type rejects and a
      timeout that is not positive are refused, each reported; the default
      base is not checked, as pydantic does not validate defaults. */
  function NewClient(model: string, token: string, apiBase: Option<string>, timeout: Option<real>,
                     acceptsUrl: UrlCheck): (r: Result<Client, ConfigError>)
    ensures r.Ok? <==> timeout.GetOr(DefaultTimeout) > 0.0 && (apiBase.Some? ==> acceptsUrl(apiBase.value))
    ensures apiBase.Some? && !acceptsUrl(apiBase.value) ==>
              r.Err? && RejectedApiBase(apiBase.value) in r.error.errors
    ensures timeout.GetOr(DefaultTimeout) <= 0.0 ==>
              r.Err? && NonPositiveTimeout(timeout.GetOr(DefaultTimeout)) in r.error.errors
    ensures r.Err? ==> forall e :: e in r.error.errors ==>
              || (e.RejectedApiBase? && apiBase == Some(e.apiBase) && !acceptsUrl(e.apiBase))
              || (e.NonPositiveTimeout? && e.timeout == timeout.GetOr(DefaultTimeout) && e.timeout <= 0.0)
    ensures r.Ok? ==> Valid(r.value)
    ensures r.Ok? ==>
              && r.value.model == model && r.value.token == token
              && r.value.apiBase == apiBase.GetOr(DefaultApiBase)
              && r.value.timeout == timeout.GetOr(DefaultTimeout)
              && r.value.url == DefaultUrl && r.value.availableModels == AvailableModels
  {
    var t := timeout.GetOr(DefaultTimeout);
    var errors := FieldErrors(apiBase, Some(t), acceptsUrl);
    if errors == [] then Ok(Client(DefaultUrl, model, apiBase.GetOr(DefaultApiBase), t, token, AvailableModels))
    else Err(ValidationError(errors))
  }

  /** `setup(...)` as written: every argument that is not `None` replaces its
      field through `model_copy(update=...)`, which performs no validation,
      and the assignments back onto the instance do not validate either. */
  function Setup(c: Client, model: Option<string>, apiBase: Option<string>, timeout: Option<real>,
                 token: Option<string>): (d: Client)
    ensures d.url == c.url && d.availableModels == c.availableModels
    ensures model.None? ==> d.model == c.model
    ensures apiBase.None? ==> d.apiBase == c.apiBase
    ensures timeout.None? ==> d.timeout == c.timeout
    ensures token.None? ==> d.token == c.token
    ensures model.Some? ==> d.model == model.value
    ensures apiBase.Some? ==> d.apiBase == apiBase.value
    ensures timeout.Some? ==> d.timeout == timeout.value
    ensures token.Some? ==> d.token == token.value
  {
    if model.None? && apiBase.None? && timeout.None? && token.None? then c
    else c.(model := model.GetOr(c.model), apiBase := apiBase.GetOr(c.apiBase),
             timeout := timeout.GetOr(c.timeout), token := token.GetOr(c.token))
  }

  /** A field changes exactly when its argument is given with a different value. */
  lemma {:induction false} SetupChangesOnlyGivenFields(c: Client, model: Option<string>, apiBase: Option<string>,
                                    timeout: Option<real>, token: Option<string>)
    ensures var d := Setup(c, model, apiBase, timeout, token);
            && (d.model != c.model <==> model.Some? && model.value != c.model)
            && (d.apiBase != c.apiBase <==> apiBase.Some? && apiBase.value != c.apiBase)
            && (d.timeout != c.timeout <==> timeout.Some? && timeout.value != c.timeout)
            && (d.token != c.token <==> token.Some? && token.value != c.token)
            && (model.None? && apiBase.None? && timeout.None? && token.None? ==> d == c)
  {
  }

  /** Repeating the same update changes nothing more. */
  lemma {:induction false} SetupIdempotent(c: Client, model: Option<string>, apiBase: Option<string>,
                        timeout: Option<real>, token: Option<string>)
    ensures var d := Setup(c, model, apiBase, timeout, token);
            Setup(d, model, apiBase, timeout, token) == d
  {
  }

  /** The discrepancy: a valid client given `timeout=0.0` through `setup`
      ends up with a timeout the field constraint forbids. */
  lemma {:induction false} SetupAcceptsNonPositiveTimeout(c: Client, t: real)
    requires Valid(c) && t <= 0.0
    ensures !Valid(Setup(c, None, None, Some(t), None))
  {
  }

  /** `setup(...)` as its documentation promises ("validated updates"): the
      same update, refused when a given value fails its field's validation,
      a base the URL type rejects or a timeout that is not positive, with
      every failing field reported. */
  function SetupValidated(c: Client, model: Option<string>, apiBase: Option<string>, timeout: Option<real>,
                          token: Option<string>, acceptsUrl: UrlCheck): (r: Result<Client, ConfigError>)
    ensures r.Err? <==> (timeout.Some? && timeout.value <= 0.0) || (apiBase.Some? && !acceptsUrl(apiBase.value))
    ensures timeout.Some? && timeout.value <= 0.0 ==>
              r.Err? && NonPositiveTimeout(timeout.value) in r.error.errors
    ensures apiBase.Some? && !acceptsUrl(apiBase.value) ==>
              r.Err? && RejectedApiBase(apiBase.value) in r.error.errors
    ensures r.Err? ==> forall e :: e in r.error.errors ==>
              || (e.RejectedApiBase? && apiBase == Some(e.apiBase) && !acceptsUrl(e.apiBase))
              || (e.NonPositiveTimeout? && timeout == Some(e.timeout) && e.timeout <= 0.0)
    ensures r.Ok? ==> r.value == Setup(c, model, apiBase, timeout, token)
  {
    var errors := FieldErrors(apiBase, timeout, acceptsUrl);
    if errors == [] then Ok(Setup(c, model, apiBase, timeout, token))
    else Err(ValidationError(errors))
  }

  /** The checked update keeps every valid client valid. */
  lemma {:induction false} SetupValidatedPreservesValid(c: Client, model: Option<string>, apiBase: Option<string>,
                                     timeout: Option<real>, token: Option<string>, acceptsUrl: UrlCheck)
    requires Valid(c)
    ensures var r := SetupValidated(c, model, apiBase, timeout, token, acceptsUrl);
            r.Ok? ==> Valid(r.value)
  {
  }

  // ---------------------------------------------------------------- the request

  const CompletionsPath := "/inference/chat/completions"

  /** The endpoint: the base with every trailing `/` removed, then the completions path. */
  function CompletionsUrl(apiBase: string): (url: string)
    ensures url == RStripChar(apiBase, '/') + CompletionsPath
    ensures StartsWith(apiBase, url[..|url| - |CompletionsPath|])
    ensures |url| > |CompletionsPath| ==> url[|url| - |CompletionsPath| - 1] != '/'
  {
    RStripChar(apiBase, '/') + CompletionsPath
  }

  /** However many slashes end the base, the endpoint is the same. */
  lemma {:induction false} CompletionsUrlIgnoresTrailingSlashes(base: string, n: nat)
    ensures CompletionsUrl(base + seq(n, _ => '/')) == CompletionsUrl(base)
    decreases n
  {
    if n > 0 {
      var slashes := seq(n, _ => '/');
      assert base + slashes == (base + seq(n - 1, _ => '/')) + ['/'];
      RStripCharAppend(base + seq(n - 1, _ => '/'), '/');
      CompletionsUrlIgnoresTrailingSlashes(base, n - 1);
    } else {
      assert base + seq(n, _ => '/') == base;
    }
  }

  /** One chat message of the payload. */
  datatype ChatMessage = ChatMessage(role: string, content: string)

  /** The JSON payload: the model id and the conversation. */
  datatype Payload = Payload(model: string, messages: seq<ChatMessage>)

  /** What `httpx.post` is given. The headers are a dictionary, as in the source. */
  datatype Request = Request(url: string, headers: map<string, string>, payload: Payload, timeout: real)

  const AcceptValue := "application/vnd.github+json"
  const ApiVersion := "2022-11-28"
  const BearerPrefix := "Bearer "

  /** The request `communicate(prompt)` sends. */
  function BuildRequest(c: Client, prompt: string): (req: Request)
    ensures req.url == CompletionsUrl(c.apiBase)
    ensures req.headers.Keys == {"Accept", "Authorization", "X-GitHub-Api-Version", "Content-Type"}
    ensures req.headers["Authorization"] == BearerPrefix + c.token
    ensures req.headers["Accept"] == AcceptValue
    ensures req.headers["X-GitHub-Api-Version"] == ApiVersion
    ensures req.headers["Content-Type"] == "application/json"
    ensures req.payload.model == c.model
    ensures req.payload.messages == [ChatMessage("user", prompt)]
    ensures req.timeout == c.timeout
  {
    var headers := map["Accept" := AcceptValue, "Authorization" := BearerPrefix + c.token,
                       "X-GitHub-Api-Version" := ApiVersion, "Content-Type" := "application/json"];
    Request(CompletionsUrl(c.apiBase), headers, Payload(c.model, [ChatMessage("user", prompt)]), c.timeout)
  }

  // ---------------------------------------------------------------- the reply

  /** How the exchange can go: a response with its status, its text, and its
      text decoded as JSON (`None` when it is not JSON), or a transport
      failure (`httpx.HTTPError` other than a status error) with its description. */
  datatype PostOutcome = Responded(status: nat, text: string, body: Option<Json>) | TransportFailed(description: string)

  /** `httpx.post`, as a function of the request. */
  type Transport = Request -> PostOutcome

  /** What `communicate` raises. The first three are the `ValueError`s it
      raises itself; `BodyNotJson` (the decoder's error) and `ShapeError` (an
      `AttributeError`, `IndexError`, `KeyError` or `TypeError` from indexing a
      reply of another shape) escape it unchanged. */
  datatype CommError =
    | InvalidReply
    | HttpStatus(message: string)
    | Network(message: string)
    | BodyNotJson
    | ShapeError

  const NetworkErrorPrefix := "Network error contacting GitHub Models: "

  /** `raise_for_status()` passes exactly the 2xx statuses. */
  predicate IsSuccess(status: nat) {
    200 <= status < 300
  }

  /** The content of the first choice's message, read the way `communicate`
      reads it: a missing `choices` key reads as one empty choice, a falsy
      message reads as an empty object, and a missing or falsy content is
      refused as invalid. Indexing a value of another shape fails. */
  function ExtractReply(data: Json): (r: Result<Json, CommError>)
    ensures r.Ok? ==> Truthy(r.value)
    ensures r.Ok? ==>
              && data.JObj? && "choices" in data.fields
              && data.fields["choices"].JArr? && |data.fields["choices"].items| > 0
              && data.fields["choices"].items[0].JObj?
              && "message" in data.fields["choices"].items[0].fields
              && data.fields["choices"].items[0].fields["message"].JObj?
              && "content" in data.fields["choices"].items[0].fields["message"].fields
              && r.value == data.fields["choices"].items[0].fields["message"].fields["content"]
    ensures data.JObj? && "choices" !in data.fields ==> r == Err(InvalidReply)
    ensures data.JObj? && "choices" in data.fields
            && data.fields["choices"].JArr? && |data.fields["choices"].items| > 0
            && data.fields["choices"].items[0].JObj?
            && "message" in data.fields["choices"].items[0].fields
            && data.fields["choices"].items[0].fields["message"].JObj?
            && !Truthy(Get(data.fields["choices"].items[0].fields["message"].fields, "content"))
            ==> r == Err(InvalidReply)
    ensures !data.JObj? ==> r == Err(ShapeError)
    ensures r.Err? ==> r.error == InvalidReply || r.error == ShapeError
    ensures data.JObj? && "choices" in data.fields ==>
              var choices := data.fields["choices"];
              !(choices.JArr? && |choices.items| > 0) ==> r == Err(ShapeError)
    ensures data.JObj? && "choices" in data.fields ==>
              var choices := data.fields["choices"];
              choices.JArr? && |choices.items| > 0 && !choices.items[0].JObj? ==> r == Err(ShapeError)
    ensures data.JObj? && "choices" in data.fields ==>
              var choices := data.fields["choices"];
              choices.JArr? && |choices.items| > 0 && choices.items[0].JObj? ==>
                var message := Get(choices.items[0].fields, "message");
                && (!Truthy(message) ==> r == Err(InvalidReply))
                && (Truthy(message) && !message.JObj? ==> r == Err(ShapeError))
                && (message.JObj? && Truthy(Get(message.fields, "content")) ==> r == Ok(message.fields["content"]))
  {
    if !data.JObj? then Err(ShapeError)
    else
      var choices := if "choices" in data.fields then data.fields["choices"] else JArr([JObj(map[])]);
      if !choices.JArr? || |choices.items| == 0 then Err(ShapeError)
      else
        var choice0 := choices.items[0];
        if !choice0.JObj? then Err(ShapeError)
        else
          var message := Get(choice0.fields, "message");
          var holder := if Truthy(message) then message else JObj(map[]);
          if !holder.JObj? then Err(ShapeError)
          else
            var content := Get(holder.fields, "content");
            if Truthy(content) then Ok(content) else Err(InvalidReply)
  }

  /** A chat completion as the service sends it back. */
  function ReplyDocument(role: string, text: string): Json {
    JObj(map["choices" := JArr([JObj(map["index" := JNum(0),
                                         "message" := JObj(map["role" := JStr(role), "content" := JStr(text)])])])])
  }

  /** Extraction recovers the text of a well-formed completion, and refuses
      one whose text is empty. */
  lemma {:induction false} ExtractsReplyText(role: string, text: string)
    ensures text != "" ==> ExtractReply(ReplyDocument(role, text)) == Ok(JStr(text))
    ensures text == "" ==> ExtractReply(ReplyDocument(role, text)) == Err(InvalidReply)
  {
    var doc := ReplyDocument(role, text);
    var message := JObj(map["role" := JStr(role), "content" := JStr(text)]);
    assert doc.fields["choices"].items[0].fields["message"] == message;
    assert |message.fields| > 0 by {
      assert "content" in message.fields;
    }
  }

  /** A completion with no choices at all, or whose first choice has no
      message, is refused as invalid. */
  lemma {:induction false} MissingMessageIsInvalid(data: Json)
    requires data.JObj?
    requires "choices" !in data.fields
             || (data.fields["choices"].JArr? && |data.fields["choices"].items| > 0
                 && data.fields["choices"].items[0].JObj?
                 && !Truthy(Get(data.fields["choices"].items[0].fields, "message")))
    ensures ExtractReply(data) == Err(InvalidReply)
  {
  }

  /** What `communicate` returns: the content itself when it is a string,
      otherwise `str(content)` of a non-string value, which is not rendered here. */
  datatype Reply = Text(text: string) | Rendered(value: Json)

  function ReplyOf(content: Json): (reply: Reply)
    ensures content.JStr? ==> reply == Text(content.s)
    ensures !content.JStr? ==> reply == Rendered(content)
  {
    if content.JStr? then Text(content.s) else Rendered(content)
  }

  /** The message of the status error: `HTTP <status> from POST <url>: <text>`. */
  function StatusMessage(status: nat, url: string, text: string): string {
    "HTTP " + (Decimal(status) + (" from POST " + url + ": " + text))
  }

  /** `communicate(prompt)`, with `post` standing for the HTTP exchange. */
  function Communicate(c: Client, prompt: string, post: Transport): (r: Result<Reply, CommError>)
    ensures var o := post(BuildRequest(c, prompt));
            && (o.TransportFailed? ==> r == Err(Network(NetworkErrorPrefix + o.description)))
            && (o.Responded? && !IsSuccess(o.status) ==>
                  r == Err(HttpStatus(StatusMessage(o.status, CompletionsUrl(c.apiBase), o.text))))
            && (o.Responded? && IsSuccess(o.status) && o.body.None? ==> r == Err(BodyNotJson))
            && (o.Responded? && IsSuccess(o.status) && o.body.Some? ==>
                  match ExtractReply(o.body.value)
                  case Ok(content) => r == Ok(ReplyOf(content))
                  case Err(e) => r == Err(e))
    ensures r.Ok? ==> post(BuildRequest(c, prompt)).Responded? && IsSuccess(post(BuildRequest(c, prompt)).status)
  {
    var req := BuildRequest(c, prompt);
    match post(req)
    case TransportFailed(description) => Err(Network(NetworkErrorPrefix + description))
    case Responded(status, text, body) =>
      if !IsSuccess(status) then Err(HttpStatus(StatusMessage(status, req.url, text)))
      else if body.None? then Err(BodyNotJson)
      else
        match ExtractReply(body.value)
        case Ok(content) => Ok(ReplyOf(content))
        case Err(e) => Err(e)
  }

  /** The status code can be read back from a status error's message: it is
      the number between `HTTP ` and the next space. */
  lemma {:induction false} StatusReadBack(status: nat, url: string, text: string)
    ensures var msg := StatusMessage(status, url, text);
            && StartsWith(msg, "HTTP ")
            && ' ' in msg[5..]
            && (forall i :: 0 <= i < |Before(msg[5..], ' ')| ==> IsDigit(Before(msg[5..], ' ')[i]))
            && DecimalValue(Before(msg[5..], ' ')) == status
  {
    var digits := Decimal(status);
    var tail := " from POST " + url + ": " + text;
    var rest := digits + tail;
    assert StatusMessage(status, url, text)[5..] == rest;
    assert rest[..|digits|] == digits;
    assert rest[|digits|] == tail[0] == ' ';
    assert ' ' !in digits by {
      forall i | 0 <= i < |digits| ensures digits[i] != ' ' {
        assert IsDigit(digits[i]);
      }
    }
    BeforeAt(rest, ' ', |digits|);
    DecimalRoundTrip(status);
  }

  /** A successful exchange carrying a well-formed completion returns its text. */
  lemma {:induction false} CommunicateReturnsReplyText(c: Client, prompt: string, post: Transport, role: string, text: string)
    requires text != ""
    requires post(BuildRequest(c, prompt)) == Responded(200, "", Some(ReplyDocument(role, text)))
    ensures Communicate(c, prompt, post) == Ok(Text(text))
  {
    ExtractsReplyText(role, text);
  }
}
