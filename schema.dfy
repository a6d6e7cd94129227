/**
 * Records shared by the backends: the uniform generation result
 * (`GenResponse` of common/schema.py), the role-tagged chat messages sent
 * to a chat-completion API, and the shape of the completion objects that
 * the engines and the remote server return.
 *
 * A completion object is a JSON dictionary probed with `[...]` and `.get`,
 * so every field the core reads is either absent, present but null, or
 * present with a value.
 */
module Schema {
  import opened Wrappers

  /** One dictionary entry as the core sees it. */
  datatype Field<+T> = Absent | Null | Present(value: T)

  /** `usage`: the two token counters the core reads. */
  datatype UsageObj = UsageObj(promptTokens: Field<int>, completionTokens: Field<int>)

  /** `choices[i].message` of a chat completion. */
  datatype MessageObj = MessageObj(content: Field<string>)

  /** `choices[i]`: `message` for chat completions, `text` for legacy ones. */
  datatype ChoiceObj = ChoiceObj(message: Field<MessageObj>, text: Field<string>)

  /** A completion object: `{"choices": [...], "usage": {...}}`. */
  datatype CompletionBody = CompletionBody(choices: Field<seq<ChoiceObj>>, usage: Field<UsageObj>)

  /** Text generation response metadata (common/schema.py `GenResponse`). */
  datatype GenResponse = GenResponse(text: string, inputTokens: int, outputTokens: int, latencyMs: nat)

  datatype Role = System | User

  /** `{"role": ..., "content": ...}` */
  datatype Message = Message(role: Role, content: string)

  /** `data["choices"][0]`, or None where that subscript raises. */
  function FirstChoice(body: CompletionBody): (r: Option<ChoiceObj>)
    ensures r.Some? <==> body.choices.Present? && |body.choices.value| > 0
    ensures r.Some? ==> r.value == body.choices.value[0]
  {
    match body.choices
    case Present(cs) => if |cs| > 0 then Some(cs[0]) else None
    case _ => None
  }

  /**
   * Token counts as a caller reports them: each counter may be missing,
   * and the whole `usage` object may be missing.
   */
  datatype Counts = Counts(prompt: Option<int>, completion: Option<int>)

  function CounterField(n: Option<int>): Field<int> {
    match n
    case Some(v) => Present(v)
    case None => Absent
  }

  function UsageField(usage: Option<Counts>): Field<UsageObj> {
    match usage
    case Some(c) => Present(UsageObj(CounterField(c.prompt), CounterField(c.completion)))
    case None => Absent
  }

  /** The well-formed chat completion with one choice whose message content is `content`. */
  function ChatReply(content: string, usage: Option<Counts>): CompletionBody {
    CompletionBody(Present([ChoiceObj(Present(MessageObj(Present(content))), Absent)]), UsageField(usage))
  }

  /** The well-formed legacy completion with one choice whose text is `text`. */
  function LegacyReply(text: string, usage: Option<Counts>): CompletionBody {
    CompletionBody(Present([ChoiceObj(Absent, Present(text))]), UsageField(usage))
  }
}
