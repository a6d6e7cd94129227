/**
 * The local GGUF runner (local_m1/run_gguf.py): resolve the YAML settings,
 * try a chat-style completion (system + user messages), and on any failure
 * there fall back once to a legacy completion of the rendered prompt.
 *
 * The parsed configuration is a `GgufConfig` value, the existence of the
 * model file is a predicate `modelExists`, the template file's text is a
 * parameter, and the two engine calls are functions `chat` and `complete`
 * from what they are sent to what they return or raise. The measured
 * latencies are parameters.
 */
module RunGguf {
  import opened Wrappers
  import opened Strings
  import opened Schema
  import opened Templates
  import FastApiApp

  const SystemTag: string := "<|system|>"
  const UserTag: string := "<|user|>"
  const DefaultSystemPrompt: string := "You are a careful clinical assistant. Be concise."

  /**
   * `_extract_system`, the copy in this file: the text between the first
   * `<|system|>` and the first `<|user|>` after it, stripped; otherwise the
   * default system prompt.
   */
  function ExtractSystem(template: string): (r: string)
    ensures r == FastApiApp.ExtractSystem(template)
  {
    if Contains(template, SystemTag) && Contains(template, UserTag) then
      var start := IndexOf(template, SystemTag).value + |SystemTag|;
      match IndexOfFrom(template, UserTag, start)
      case Some(end) => Strip(template[start..end])
      case None => DefaultSystemPrompt
    else DefaultSystemPrompt
  }

  /** The copy keeps the proxy's contract: total, trimmed, and the same fallback string. */
  lemma ExtractSystemSameContract(template: string)
    ensures Trimmed(ExtractSystem(template))
    ensures !Contains(template, SystemTag) || !Contains(template, UserTag)
            ==> ExtractSystem(template) == DefaultSystemPrompt
    ensures DefaultSystemPrompt == FastApiApp.DefaultSystemPrompt
  {
  }

  /** The YAML keys the runner reads. */
  datatype GgufConfig = GgufConfig(
    modelPath: Field<string>,
    nCtx: Field<int>,
    nGpuLayers: Field<int>,
    maxTokens: Field<int>,
    stop: Field<seq<string>>)

  /** What the runner builds the engine and its sampling parameters from. */
  datatype Settings = Settings(modelPath: string, nCtx: int, nGpuLayers: int, maxTokens: int, stop: seq<string>)

  /** The exceptions `generate` lets escape. */
  datatype GgufError =
    | MissingKey(key: string)       // KeyError
    | InvalidValue(key: string)     // TypeError from Path(None) or int(None)
    | ModelNotFound(path: string)   // FileNotFoundError
    | EngineFailure                 // the legacy completion call raised
    | MalformedCompletion           // the legacy completion lacks the fields read

  /** `int(d.get(key, default))`: a missing key gives the default, a null value raises. */
  function IntOr(f: Field<int>, default: int): Option<int> {
    match f
    case Absent => Some(default)
    case Null => None
    case Present(v) => Some(v)
  }

  /** `list(cfg.get("stop", []) or [])`: missing or null gives the empty list. */
  function StopList(f: Field<seq<string>>): seq<string> {
    match f
    case Present(l) => l
    case _ => []
  }

  /**
   * The configuration part of `generate`, up to the engine call: the model
   * path must be given and exist, then `n_ctx` (8192), `n_gpu_layers` (-1)
   * and `max_tokens` (512) take their defaults when missing.
   */
  function ResolveSettings(cfg: GgufConfig, modelExists: string -> bool): (r: Result<Settings, GgufError>)
    ensures r.Success? <==>
      && cfg.modelPath.Present? && modelExists(cfg.modelPath.value)
      && !cfg.nCtx.Null? && !cfg.nGpuLayers.Null? && !cfg.maxTokens.Null?
    ensures r.Success? ==> r.value.modelPath == cfg.modelPath.value && r.value.stop == StopList(cfg.stop)
    ensures r.Success? ==> r.value.nCtx == (if cfg.nCtx.Present? then cfg.nCtx.value else 8192)
    ensures r.Success? ==> r.value.nGpuLayers == (if cfg.nGpuLayers.Present? then cfg.nGpuLayers.value else -1)
    ensures r.Success? ==> r.value.maxTokens == (if cfg.maxTokens.Present? then cfg.maxTokens.value else 512)
  {
    match cfg.modelPath
    case Absent => Failure(MissingKey("model_path"))
    case Null => Failure(InvalidValue("model_path"))
    case Present(path) =>
      if !modelExists(path) then Failure(ModelNotFound(path))
      else
        match IntOr(cfg.nCtx, 8192)
        case None => Failure(InvalidValue("n_ctx"))
        case Some(nCtx) =>
          match IntOr(cfg.nGpuLayers, -1)
          case None => Failure(InvalidValue("n_gpu_layers"))
          case Some(nGpuLayers) =>
            match IntOr(cfg.maxTokens, 512)
            case None => Failure(InvalidValue("max_tokens"))
            case Some(maxTokens) => Success(Settings(path, nCtx, nGpuLayers, maxTokens, StopList(cfg.stop)))
  }

  /** With only an existing model path configured, every default applies. */
  lemma DefaultSettings(path: string, modelExists: string -> bool, stop: Field<seq<string>>)
    requires modelExists(path) && !stop.Present?
    ensures ResolveSettings(GgufConfig(Present(path), Absent, Absent, Absent, stop), modelExists)
         == Success(Settings(path, 8192, -1, 512, []))
  {
  }

  /** A missing model file is reported before anything else is read. */
  lemma ModelNotFoundFirst(cfg: GgufConfig, modelExists: string -> bool)
    requires cfg.modelPath.Present? && !modelExists(cfg.modelPath.value)
    ensures ResolveSettings(cfg, modelExists) == Failure(ModelNotFound(cfg.modelPath.value))
  {
  }

  /** What an engine call did: raised, or returned a completion object. */
  datatype Outcome = Raised | Returned(body: CompletionBody)

  /** `str(d[key])`: a missing key raises, a null value prints as "None". */
  function StrOfEntry(f: Field<string>): Option<string> {
    match f
    case Absent => None
    case Null => Some("None")
    case Present(s) => Some(s)
  }

  /** A `usage` on which `.get(key, 0)` and `int(...)` raise. */
  predicate UsageUnreadable(usage: Field<UsageObj>) {
    || usage.Null?
    || (usage.Present? && (usage.value.promptTokens.Null? || usage.value.completionTokens.Null?))
  }

  /** The `GenResponse(...)` built by both branches: text stripped, counts defaulting to 0. */
  function Normalize(raw: string, usage: Field<UsageObj>, latencyMs: nat): (r: Option<GenResponse>)
    ensures r.None? <==> UsageUnreadable(usage)
    ensures r.Some? ==> r.value.text == Strip(raw) && r.value.latencyMs == latencyMs
    ensures r.Some? && usage.Absent? ==> r.value.inputTokens == 0 && r.value.outputTokens == 0
    ensures r.Some? && usage.Present? ==>
      && r.value.inputTokens == (if usage.value.promptTokens.Present? then usage.value.promptTokens.value else 0)
      && r.value.outputTokens == (if usage.value.completionTokens.Present? then usage.value.completionTokens.value else 0)
  {
    match usage
    case Absent => Some(GenResponse(Strip(raw), 0, 0, latencyMs))
    case Null => None
    case Present(u) =>
      var i, o := IntOr(u.promptTokens, 0), IntOr(u.completionTokens, 0);
      if i.Some? && o.Some? then Some(GenResponse(Strip(raw), i.value, o.value, latencyMs)) else None
  }

  /** A chat completion lacking `choices[0].message.content`, or with unreadable usage. */
  predicate ChatMalformed(body: CompletionBody) {
    || FirstChoice(body).None?
    || !FirstChoice(body).value.message.Present?
    || FirstChoice(body).value.message.value.content.Absent?
    || UsageUnreadable(body.usage)
  }

  /** A legacy completion lacking `choices[0].text`, or with unreadable usage. */
  predicate LegacyMalformed(body: CompletionBody) {
    || FirstChoice(body).None?
    || FirstChoice(body).value.text.Absent?
    || UsageUnreadable(body.usage)
  }

  /** Reshaping a chat completion (lines 90-97); None where it raises. */
  function NormalizeChat(body: CompletionBody, latencyMs: nat): (r: Option<GenResponse>)
    ensures r.None? <==> ChatMalformed(body)
    ensures r.Some? ==> Trimmed(r.value.text) && r.value.latencyMs == latencyMs
    ensures r.Some? ==> r == Normalize(StrOfEntry(FirstChoice(body).value.message.value.content).value, body.usage, latencyMs)
  {
    match FirstChoice(body)
    case None => None
    case Some(choice) =>
      match choice.message
      case Present(m) =>
        (match StrOfEntry(m.content)
         case Some(raw) => Normalize(raw, body.usage, latencyMs)
         case None => None)
      case _ => None
  }

  /** Reshaping a legacy completion (lines 108-115); None where it raises. */
  function NormalizeLegacy(body: CompletionBody, latencyMs: nat): (r: Option<GenResponse>)
    ensures r.None? <==> LegacyMalformed(body)
    ensures r.Some? ==> Trimmed(r.value.text) && r.value.latencyMs == latencyMs
    ensures r.Some? ==> r == Normalize(StrOfEntry(FirstChoice(body).value.text).value, body.usage, latencyMs)
  {
    match FirstChoice(body)
    case None => None
    case Some(choice) =>
      match StrOfEntry(choice.text)
      case Some(raw) => Normalize(raw, body.usage, latencyMs)
      case None => None
  }

  /** Token counts of a `usage` given by the caller, 0 for each one not reported. */
  function CountsOrZero(usage: Option<Counts>): (int, int) {
    match usage
    case Some(c) => (c.prompt.GetOr(0), c.completion.GetOr(0))
    case None => (0, 0)
  }

  /** A caller-built `usage` is always readable, and missing counts read as 0. */
  lemma NormalizeReported(raw: string, usage: Option<Counts>, latencyMs: nat)
    ensures Normalize(raw, UsageField(usage), latencyMs)
         == Some(GenResponse(Strip(raw), CountsOrZero(usage).0, CountsOrZero(usage).1, latencyMs))
  {
    match usage
    case None =>
    case Some(c) =>
      assert IntOr(CounterField(c.prompt), 0) == Some(c.prompt.GetOr(0));
      assert IntOr(CounterField(c.completion), 0) == Some(c.completion.GetOr(0));
  }

  /** A chat completion with content `c` yields `strip(c)` and the reported counts, 0 when missing. */
  lemma NormalizeChatReply(content: string, usage: Option<Counts>, latencyMs: nat)
    ensures NormalizeChat(ChatReply(content, usage), latencyMs)
         == Some(GenResponse(Strip(content), CountsOrZero(usage).0, CountsOrZero(usage).1, latencyMs))
  {
    var body := ChatReply(content, usage);
    assert FirstChoice(body) == Some(ChoiceObj(Present(MessageObj(Present(content))), Absent));
    NormalizeReported(content, usage, latencyMs);
    assert !UsageUnreadable(body.usage);
    assert NormalizeChat(body, latencyMs) == Normalize(content, body.usage, latencyMs);
  }

  /** A legacy completion with text `t` yields `strip(t)` and the reported counts, 0 when missing. */
  lemma NormalizeLegacyReply(text: string, usage: Option<Counts>, latencyMs: nat)
    ensures NormalizeLegacy(LegacyReply(text, usage), latencyMs)
         == Some(GenResponse(Strip(text), CountsOrZero(usage).0, CountsOrZero(usage).1, latencyMs))
  {
    var body := LegacyReply(text, usage);
    assert FirstChoice(body) == Some(ChoiceObj(Absent, Present(text)));
    NormalizeReported(text, usage, latencyMs);
    assert !UsageUnreadable(body.usage);
    assert NormalizeLegacy(body, latencyMs) == Normalize(text, body.usage, latencyMs);
  }

  /** A null message content is not an error here: `str(None)` makes it the text "None". */
  lemma NullContentReadsNone(usage: Field<UsageObj>, latencyMs: nat)
    requires !UsageUnreadable(usage)
    ensures var body := CompletionBody(Present([ChoiceObj(Present(MessageObj(Null)), Absent)]), usage);
      NormalizeChat(body, latencyMs).Some? && NormalizeChat(body, latencyMs).value.text == "None"
  {
    assert Trimmed("None");
    StripTrimmed("None");
  }

  /**
   * On a chat completion both runners accept, they agree up to their
   * documented differences: this runner strips the text the proxy passes on
   * verbatim, and reports 0 where the proxy reports null.
   */
  lemma NormalizersAgree(body: CompletionBody, latencyMs: nat)
    requires FastApiApp.ParseCompletion(body, latencyMs).Some? && NormalizeChat(body, latencyMs).Some?
    ensures var p, g := FastApiApp.ParseCompletion(body, latencyMs).value, NormalizeChat(body, latencyMs).value;
      && g.text == Strip(p.text)
      && g.inputTokens == p.promptTokens.GetOr(0)
      && g.outputTokens == p.completionTokens.GetOr(0)
      && g.latencyMs == p.latencyMs
  {
  }

  /** The two messages of the chat request: the extracted system prompt, then the caller's text verbatim. */
  function ChatMessages(template: string, text: string): (msgs: seq<Message>)
    ensures |msgs| == 2
    ensures msgs[0] == Message(System, ExtractSystem(template))
    ensures msgs[1] == Message(User, text)
  {
    [Message(System, ExtractSystem(template)), Message(User, text)]
  }

  /** The chat attempt; None where anything in the `try` block raises. */
  function ChatAttempt(outcome: Outcome, latencyMs: nat): (r: Option<GenResponse>)
    ensures r.None? <==> outcome.Raised? || ChatMalformed(outcome.body)
  {
    match outcome
    case Raised => None
    case Returned(body) => NormalizeChat(body, latencyMs)
  }

  /** The legacy attempt in the `except` block; its exceptions propagate. */
  function LegacyAttempt(outcome: Outcome, latencyMs: nat): (r: Result<GenResponse, GgufError>)
    ensures r.Failure? ==> r.error == EngineFailure || r.error == MalformedCompletion
    ensures r.Failure? && r.error == EngineFailure <==> outcome.Raised?
    ensures outcome.Returned? ==> (r.Success? <==> !LegacyMalformed(outcome.body))
    ensures r.Success? ==> r.value == NormalizeLegacy(outcome.body, latencyMs).value
    ensures r.Success? ==> Trimmed(r.value.text) && r.value.latencyMs == latencyMs
  {
    match outcome
    case Raised => Failure(EngineFailure)
    case Returned(body) =>
      match NormalizeLegacy(body, latencyMs)
      case Some(resp) => Success(resp)
      case None => Failure(MalformedCompletion)
  }

  /** `generate(text, cfg_path)`. */
  function Generate(text: string, cfg: GgufConfig, modelExists: string -> bool, template: string,
                    chat: (Settings, seq<Message>) -> Outcome, complete: (Settings, string) -> Outcome,
                    chatLatencyMs: nat, legacyLatencyMs: nat): (r: Result<GenResponse, GgufError>)
    ensures r.Success? ==> Trimmed(r.value.text)
    ensures r.Success? ==> r.value.latencyMs == chatLatencyMs || r.value.latencyMs == legacyLatencyMs
    ensures ResolveSettings(cfg, modelExists).Failure? ==> r == Failure(ResolveSettings(cfg, modelExists).error)
  {
    match ResolveSettings(cfg, modelExists)
    case Failure(e) => Failure(e)
    case Success(settings) =>
      match ChatAttempt(chat(settings, ChatMessages(template, text)), chatLatencyMs)
      case Some(resp) => Success(resp)
      case None => LegacyAttempt(complete(settings, Render(template, text)), legacyLatencyMs)
  }

  /** A missing model file is a not-found error, whatever the engines would have done. */
  lemma GenerateModelNotFound(text: string, cfg: GgufConfig, modelExists: string -> bool, template: string,
                              chat: (Settings, seq<Message>) -> Outcome, complete: (Settings, string) -> Outcome,
                              chatLatencyMs: nat, legacyLatencyMs: nat)
    requires cfg.modelPath.Present? && !modelExists(cfg.modelPath.value)
    ensures Generate(text, cfg, modelExists, template, chat, complete, chatLatencyMs, legacyLatencyMs)
         == Failure(ModelNotFound(cfg.modelPath.value))
  {
    ModelNotFoundFirst(cfg, modelExists);
  }

  /**
   * A usable chat completion is the answer: its text stripped, and the
   * legacy engine is never consulted (any other `complete` gives the same).
   */
  lemma GenerateChatFirst(text: string, cfg: GgufConfig, modelExists: string -> bool, template: string,
                          chat: (Settings, seq<Message>) -> Outcome,
                          complete: (Settings, string) -> Outcome, complete': (Settings, string) -> Outcome,
                          chatLatencyMs: nat, legacyLatencyMs: nat, settings: Settings, body: CompletionBody)
    requires ResolveSettings(cfg, modelExists) == Success(settings)
    requires chat(settings, ChatMessages(template, text)) == Returned(body) && !ChatMalformed(body)
    ensures Generate(text, cfg, modelExists, template, chat, complete, chatLatencyMs, legacyLatencyMs)
         == Success(NormalizeChat(body, chatLatencyMs).value)
         == Generate(text, cfg, modelExists, template, chat, complete', chatLatencyMs, legacyLatencyMs)
  {
  }

  /**
   * Any failure on the chat path, a raised call or a malformed completion,
   * switches to the legacy path, which is sent exactly the rendered prompt
   * and whose outcome is the result.
   */
  lemma GenerateFallsBack(text: string, cfg: GgufConfig, modelExists: string -> bool, template: string,
                          chat: (Settings, seq<Message>) -> Outcome, complete: (Settings, string) -> Outcome,
                          chatLatencyMs: nat, legacyLatencyMs: nat, settings: Settings)
    requires ResolveSettings(cfg, modelExists) == Success(settings)
    requires var outcome := chat(settings, ChatMessages(template, text));
      outcome.Raised? || ChatMalformed(outcome.body)
    ensures Generate(text, cfg, modelExists, template, chat, complete, chatLatencyMs, legacyLatencyMs)
         == LegacyAttempt(complete(settings, Render(template, text)), legacyLatencyMs)
  {
  }

  /**
   * A legacy failure after a failed chat attempt is the error: a raised call
   * is an engine failure, a malformed completion is reported as such, and
   * there is no third attempt.
   */
  lemma GenerateLegacyFailurePropagates(text: string, cfg: GgufConfig, modelExists: string -> bool, template: string,
                                        chat: (Settings, seq<Message>) -> Outcome,
                                        complete: (Settings, string) -> Outcome,
                                        chatLatencyMs: nat, legacyLatencyMs: nat, settings: Settings)
    requires ResolveSettings(cfg, modelExists) == Success(settings)
    requires var outcome := chat(settings, ChatMessages(template, text));
      outcome.Raised? || ChatMalformed(outcome.body)
    requires var outcome := complete(settings, Render(template, text));
      outcome.Raised? || LegacyMalformed(outcome.body)
    ensures Generate(text, cfg, modelExists, template, chat, complete, chatLatencyMs, legacyLatencyMs)
         == Failure(if complete(settings, Render(template, text)).Raised? then EngineFailure else MalformedCompletion)
  {
    GenerateFallsBack(text, cfg, modelExists, template, chat, complete, chatLatencyMs, legacyLatencyMs, settings);
  }

}
