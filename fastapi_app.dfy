/**
 * The remote-GPU proxy (serve_gpu/fastapi_app.py): `GET /health` and
 * `POST /generate`, which extracts a system prompt from the template, sends
 * one chat-completion request upstream and reshapes the reply.
 *
 * The environment-derived settings are a `ProxyConfig` value, the template
 * file's text is a parameter, and the HTTP call is a function `post` from the
 * request sent to what came back; the measured latency is a parameter.
 */
module FastApiApp {
  import opened Wrappers
  import opened Strings
  import opened Schema

  const SystemTag: string := "<|system|>"
  const UserTag: string := "<|user|>"
  const DefaultSystemPrompt: string := "You are a careful clinical assistant. Be concise."

  const UpstreamErrorDetail: string := "Upstream vLLM error"
  const MalformedDetail: string := "Malformed vLLM response"

  /** Settings read from the environment at import time. */
  datatype ProxyConfig = ProxyConfig(baseUrl: string, apiKey: string, modelId: string, maxTokens: int)

  /** The settings when none of the environment variables is set. */
  const DefaultConfig: ProxyConfig :=
    ProxyConfig("http://localhost:8001", "not-required", "aaditya/Llama3-OpenBioLLM-8B", 512)

  datatype HealthBody = HealthBody(statusCode: int, status: string, model: string)

  /** `GET /health`: always 200 with status "ok" and the configured model, whatever the upstream. */
  function Health(cfg: ProxyConfig): (r: HealthBody)
    ensures r.statusCode == 200 && r.status == "ok" && r.model == cfg.modelId
  {
    HealthBody(200, "ok", cfg.modelId)
  }

  /**
   * `_extract_system`: the text between the first `<|system|>` and the first
   * `<|user|>` after it, stripped; otherwise the default system prompt. The
   * `ValueError` that `index` raises is absorbed, so the function is total.
   */
  function ExtractSystem(template: string): (r: string)
    ensures Trimmed(r)
    ensures !Contains(template, SystemTag) || !Contains(template, UserTag) ==> r == DefaultSystemPrompt
  {
    DefaultTrimmed();
    if Contains(template, SystemTag) && Contains(template, UserTag) then
      var start := IndexOf(template, SystemTag).value + |SystemTag|;
      match IndexOfFrom(template, UserTag, start)
      case Some(end) => Strip(template[start..end])
      case None => DefaultSystemPrompt
    else DefaultSystemPrompt
  }

  lemma DefaultTrimmed()
    ensures Trimmed(DefaultSystemPrompt)
  {
    var a, b := "You are a careful clinical assistant.", " Be concise.";
    DefaultParts();
    assert (a + b)[0] == a[0] == 'Y';
    assert (a + b)[|a + b| - 1] == b[|b| - 1] == '.';
  }

  lemma DefaultParts()
    ensures DefaultSystemPrompt == "You are a careful clinical assistant." + " Be concise."
  {
  }


  lemma SystemTagNoBorder()
    ensures NoBorder(SystemTag)
  {
    forall d | 0 < d < |SystemTag|
      ensures !SelfOverlap(SystemTag, d)
    {
      assert SystemTag[d..][0] != SystemTag[..|SystemTag| - d][0];
    }
  }

  lemma UserTagNoBorder()
    ensures NoBorder(UserTag)
  {
    forall d | 0 < d < |UserTag|
      ensures !SelfOverlap(UserTag, d)
    {
      assert UserTag[d..][0] != UserTag[..|UserTag| - d][0];
    }
  }

  /**
   * A well-formed template `pre <|system|> mid <|user|> post`, where `pre`
   * holds no system tag and `mid` no user tag, yields `mid` stripped.
   */
  lemma ExtractWellFormed(pre: string, mid: string, post: string)
    requires !Contains(pre, SystemTag) && !Contains(mid, UserTag)
    ensures ExtractSystem(pre + SystemTag + (mid + UserTag + post)) == Strip(mid)
  {
    var t := pre + SystemTag + (mid + UserTag + post);
    SystemTagNoBorder();
    UserTagNoBorder();
    FirstOccurrence(pre, SystemTag, mid + UserTag + post);
    CloseAfterOpen(pre, SystemTag, mid, UserTag, post);
    ExtractBetween(t, |pre|, |pre| + |SystemTag| + |mid|, mid);
  }

  /** Both searches succeed: the slice between the tags, stripped. */
  lemma ExtractBetween(t: string, i: nat, j: nat, mid: string)
    requires IndexOf(t, SystemTag) == Some(i)
    requires IndexOfFrom(t, UserTag, i + |SystemTag|) == Some(j)
    requires t[i + |SystemTag|..j] == mid
    ensures ExtractSystem(t) == Strip(mid)
  {
    MatchContains(t, UserTag, j);
  }

  /**
   * When the user tag occurs only before the first system tag, the search
   * for it after the system tag fails and the default is returned, with no
   * error escaping.
   */
  lemma ExtractUserTagOnlyBefore(pre: string, post: string)
    requires !Contains(pre, SystemTag) && Contains(pre, UserTag) && !Contains(post, UserTag)
    ensures ExtractSystem(pre + SystemTag + post) == DefaultSystemPrompt
  {
    var t := pre + SystemTag + post;
    var start := |pre| + |SystemTag|;
    SystemTagNoBorder();
    FirstOccurrence(pre, SystemTag, post);
    MatchAtExtend(pre, SystemTag + post, UserTag, IndexOf(pre, UserTag).value);
    assert t == pre + (SystemTag + post);
    assert Contains(t, UserTag);
    assert t[start..] == post;
    MatchAtDrop(t, UserTag, start);
  }

  /** The default prompt mentions "clinical assistant". */
  lemma DefaultMentionsClinicalAssistant()
    ensures Contains(DefaultSystemPrompt, "clinical assistant")
  {
    var a, b, p := "You are a careful clinical assistant.", " Be concise.", "clinical assistant";
    DefaultParts();
    ClinicalAt();
    MatchAtExtend(a, b, p, 18);
    MatchContains(a + b, p, 18);
  }

  lemma ClinicalAt()
    ensures MatchAt("You are a careful clinical assistant.", "clinical assistant", 18)
  {
  }

  /** The chat-completion request sent upstream. */
  datatype ChatRequest = ChatRequest(
    url: string,
    authorization: string,
    model: string,
    messages: seq<Message>,
    maxTokens: int,
    stream: bool)

  /**
   * The request `generate` posts: the chat-completions endpoint with a bearer
   * token, a system message carrying the extracted prompt followed by a user
   * message carrying the input verbatim, and streaming off.
   */
  function BuildRequest(cfg: ProxyConfig, template: string, input: string): (req: ChatRequest)
    ensures |req.messages| == 2
    ensures req.messages[0] == Message(System, ExtractSystem(template))
    ensures req.messages[1] == Message(User, input)
    ensures !req.stream && req.model == cfg.modelId && req.maxTokens == cfg.maxTokens
    ensures req.url == cfg.baseUrl + "/v1/chat/completions"
    ensures req.authorization == "Bearer " + cfg.apiKey
  {
    ChatRequest(
      cfg.baseUrl + "/v1/chat/completions",
      "Bearer " + cfg.apiKey,
      cfg.modelId,
      [Message(System, ExtractSystem(template)), Message(User, input)],
      cfg.maxTokens,
      false)
  }

  /** What `r.json()` makes of a reply body. */
  datatype Decoded = NotJson | NotObject | Object(body: CompletionBody)

  /** The outcome of the upstream POST. */
  datatype Reply = TransportError | Status(code: int, decoded: Decoded)

  /** `client.post`, `raise_for_status` or `r.json()` raised. */
  predicate UpstreamFailed(reply: Reply) {
    || reply.TransportError?
    || (reply.Status? && !(200 <= reply.code < 300))
    || (reply.Status? && reply.decoded.NotJson?)
  }

  /** `GenerateOut`: token counts are null when the upstream does not report them. */
  datatype GenerateOut = GenerateOut(
    text: string,
    latencyMs: nat,
    promptTokens: Option<int>,
    completionTokens: Option<int>)

  /** The HTTP response of `POST /generate`. */
  datatype Response = Ok(out: GenerateOut) | HttpError(status: int, detail: string)

  /** A body on which `data["choices"][0]["message"]["content"]`, `.get("usage", {})` or `GenerateOut(text=...)` fails. */
  predicate Malformed(body: CompletionBody) {
    || FirstChoice(body).None?
    || !FirstChoice(body).value.message.Present?
    || !FirstChoice(body).value.message.value.content.Present?
    || body.usage.Null?
  }

  /** `usage.get(key)`: a missing or null counter is reported as null. */
  function Counter(f: Field<int>): Option<int> {
    match f
    case Present(v) => Some(v)
    case _ => None
  }

  /** The reshaping in the second `try` of `generate`; None where it raises. */
  function ParseCompletion(body: CompletionBody, latencyMs: nat): (r: Option<GenerateOut>)
    ensures r.None? <==> Malformed(body)
    ensures r.Some? ==> r.value.text == FirstChoice(body).value.message.value.content.value
    ensures r.Some? ==> r.value.latencyMs == latencyMs
    ensures r.Some? ==>
      r.value.promptTokens == (if body.usage.Present? && body.usage.value.promptTokens.Present?
                      then Some(body.usage.value.promptTokens.value) else None)
    ensures r.Some? ==>
      r.value.completionTokens == (if body.usage.Present? && body.usage.value.completionTokens.Present?
                      then Some(body.usage.value.completionTokens.value) else None)
  {
    match FirstChoice(body)
    case None => None
    case Some(choice) =>
      match choice.message
      case Present(m) =>
        (match m.content
         case Present(content) =>
           (match body.usage
            case Absent => Some(GenerateOut(content, latencyMs, None, None))
            case Null => None
            case Present(u) =>
              Some(GenerateOut(content, latencyMs, Counter(u.promptTokens), Counter(u.completionTokens))))
         case _ => None)
      case _ => None
  }

  /**
   * A chat completion with content `c` yields `c` verbatim, not stripped,
   * and the counters it reports, null for those it does not.
   */
  lemma ParseChatReply(content: string, usage: Option<Counts>, latencyMs: nat)
    ensures ParseCompletion(ChatReply(content, usage), latencyMs)
         == Some(GenerateOut(content, latencyMs,
                             if usage.Some? then usage.value.prompt else None,
                             if usage.Some? then usage.value.completion else None))
  {
  }

  /** `POST /generate`. */
  function Generate(cfg: ProxyConfig, template: string, input: string,
                    post: ChatRequest -> Reply, latencyMs: nat): (r: Response)
    ensures r.Ok? ==>
      var reply := post(BuildRequest(cfg, template, input));
      && reply.Status? && 200 <= reply.code < 300 && reply.decoded.Object?
      && ParseCompletion(reply.decoded.body, latencyMs) == Some(r.out)
    ensures r.Ok? <==>
      var reply := post(BuildRequest(cfg, template, input));
      !UpstreamFailed(reply) && reply.decoded.Object? && !Malformed(reply.decoded.body)
    ensures r.HttpError? ==>
      (r.status == 502 && r.detail == UpstreamErrorDetail) || (r.status == 500 && r.detail == MalformedDetail)
  {
    var reply := post(BuildRequest(cfg, template, input));
    if UpstreamFailed(reply) then HttpError(502, UpstreamErrorDetail)
    else
      match reply.decoded
      case Object(body) =>
        (match ParseCompletion(body, latencyMs)
         case Some(out) => Ok(out)
         case None => HttpError(500, MalformedDetail))
      case _ => HttpError(500, MalformedDetail)
  }

  /** A 2xx JSON object with the expected fields gives 200 with exactly what `ParseCompletion` reads from it. */
  lemma WellFormedReplyIsOk(cfg: ProxyConfig, template: string, input: string,
                            post: ChatRequest -> Reply, latencyMs: nat)
    requires var reply := post(BuildRequest(cfg, template, input));
      !UpstreamFailed(reply) && reply.decoded.Object? && !Malformed(reply.decoded.body)
    ensures var reply := post(BuildRequest(cfg, template, input));
      Generate(cfg, template, input, post, latencyMs) == Ok(ParseCompletion(reply.decoded.body, latencyMs).value)
  {
  }

  /** A transport error, a non-2xx status or an undecodable body gives 502 and never a success body. */
  lemma UpstreamFailureIs502(cfg: ProxyConfig, template: string, input: string,
                             post: ChatRequest -> Reply, latencyMs: nat)
    requires UpstreamFailed(post(BuildRequest(cfg, template, input)))
    ensures Generate(cfg, template, input, post, latencyMs) == HttpError(502, UpstreamErrorDetail)
  {
  }

  /** A 2xx reply whose JSON lacks the expected fields gives 500. */
  lemma MalformedIs500(cfg: ProxyConfig, template: string, input: string,
                       post: ChatRequest -> Reply, latencyMs: nat)
    requires var reply := post(BuildRequest(cfg, template, input));
      reply.Status? && 200 <= reply.code < 300
      && (reply.decoded.NotObject? || (reply.decoded.Object? && Malformed(reply.decoded.body)))
    ensures Generate(cfg, template, input, post, latencyMs) == HttpError(500, MalformedDetail)
  {
  }

  /**
   * The mocked upstream of the test suite: content "Hello test" with usage
   * 10/5 gives 200 with text "Hello test" and token counts 10 and 5.
   */
  lemma MockedUpstream(cfg: ProxyConfig, template: string, post: ChatRequest -> Reply, latencyMs: nat)
    requires post(BuildRequest(cfg, template, "test"))
          == Status(200, Object(ChatReply("Hello test", Some(Counts(Some(10), Some(5))))))
    ensures Generate(cfg, template, "test", post, latencyMs)
         == Ok(GenerateOut("Hello test", latencyMs, Some(10), Some(5)))
  {
    ParseChatReply("Hello test", Some(Counts(Some(10), Some(5))), latencyMs);
  }
}
