# openbiollm-inference in Dafny

A model of the prompt and response shaping around the OpenBioLLM inference backends.

- **Prompt rendering** (`common/templates.py`). `render_prompt` replaces every `{{input}}` in the template with the user's text, as Python's `str.replace` does.
- **System-prompt extraction** (`_extract_system`). It appears as two identical copies, one in `serve_gpu/fastapi_app.py` and one in `local_m1/run_gguf.py`. It takes the text between the first `<|system|>` and the first `<|user|>` after it, stripped. Otherwise it returns "You are a careful clinical assistant. Be concise.".
- **The proxy's `POST /generate` and `GET /health`**. `/generate` builds one chat-completion request, posts it upstream and maps the reply to a `GenerateOut` body. A failing upstream gives 502 and a malformed reply gives 500.
- **The GGUF runner's `generate`**. It first tries a chat completion (a system message, then a user message). On any failure there, it falls back once to a legacy completion of the rendered prompt. Both paths reshape the engine's answer into a `GenResponse`: the text is stripped and missing token counts become 0.

Everything is pure, as in the source. The modules follow the source files:

| module | models |
|---|---|
| `Strings` | Python's `in`, `str.index(sub[, start])`, `str.isspace` and `str.strip()` |
| `Templates` | `render_prompt`. `Split`, `Join` and `Count` are the independent reference: `str.split`, `str.join` and `str.count`. |
| `Schema` | `GenResponse`, chat messages, and the JSON completion objects the core reads |
| `FastApiApp` | `serve_gpu/fastapi_app.py` |
| `RunGguf` | `local_m1/run_gguf.py` |

The code outside this core is replaced by parameters:

- The HTTP client becomes `post: ChatRequest -> Reply`, from the request actually sent to the reply.
- The llama.cpp calls become `chat: (Settings, seq<Message>) -> Outcome` and `complete: (Settings, string) -> Outcome`.
- The template file's text is a string parameter, the parsed YAML is a `GgufConfig` value, and the environment settings are a `ProxyConfig` value (`DefaultConfig` holds their defaults).
- `Path(model_path).exists()` becomes `modelExists`, and measured latencies are `nat` parameters.

Because the engines and the client are functions of their request, contracts can say exactly what was sent. The chat engine gets the two messages of `ChatMessages`, and the legacy engine gets `Render(template, text)`.

A dictionary entry that the core reads is a `Field`: `Absent`, `Null` or `Present(v)`. This covers Python's distinction between a missing key (`KeyError`, or the `.get` default) and a JSON `null`. The runner turns a `null` content into the text "None" (`str(None)`). A `null` token count makes `int(None)` raise: on the chat path that triggers the fallback, and on the legacy path it is an error.

## Behaviour worth knowing

- The user tag is searched for from the end of the system tag on.
- The proxy passes the text through unstripped and reports missing counts as null.
- On the GGUF chat path, a malformed chat completion is caught by the blanket `except` and triggers the fallback.
- Token counts are whatever integers the backend reports; neither backend checks their sign.

## Model

| member | source | states |
|---|---|---|
| `Strings.IndexOf` | src/openbiollm_inference/serve_gpu/fastapi_app.py:68-69 | `in` / `index`: the result is an occurrence and no earlier one exists; None means there is no occurrence anywhere |
| `Strings.IndexOfFrom` | src/openbiollm_inference/serve_gpu/fastapi_app.py:70 | `index(sub, start)`: the leftmost occurrence at or after `start`; None (the `ValueError`) exactly when there is none |
| `Strings.Strip` | src/openbiollm_inference/serve_gpu/fastapi_app.py:71 | `strip()` leaves no leading or trailing whitespace and never lengthens |
| `Strings.StripPadded` | src/openbiollm_inference/serve_gpu/fastapi_app.py:71 | `strip()` removes exactly the whitespace around a trimmed core: `strip(a + m + b) == m` |
| `Strings.StripIdempotent` | src/openbiollm_inference/serve_gpu/fastapi_app.py:71 | stripping twice is stripping once |
| `Templates.RenderNoPlaceholder` | src/openbiollm_inference/common/templates.py:25 | a template without `{{input}}` renders to itself, whatever the input |
| `Templates.RenderSingle` | src/openbiollm_inference/common/templates.py:25 | with exactly one placeholder (`pre {{input}} post`, count 1), the result is `pre + input + post` |
| `Templates.HelloWorld` | tests/test_templates.py:7-10 | "Hello {{input}}!" with "world" renders to "Hello world!" |
| `Templates.RenderLength` | src/openbiollm_inference/common/templates.py:25 | the length is `len(template) + k * (len(input) - 9)`, where k is the number of non-overlapping occurrences |
| `Templates.RenderIsSplitJoin` | src/openbiollm_inference/common/templates.py:25 | `template.replace(p, x) == x.join(template.split(p))` |
| `Templates.RenderPlaceholderIdentity` | src/openbiollm_inference/common/templates.py:25 | rendering with the input `{{input}}` is the identity |
| `Templates.SplitJoinRoundTrip` | src/openbiollm_inference/common/templates.py:25 | joining the split pieces with the placeholder gives the template back |
| `Templates.SplitPiecesFree` | src/openbiollm_inference/common/templates.py:25 | no piece between placeholders contains the placeholder |
| `Templates.EmptyInputDeletesPlaceholders` | src/openbiollm_inference/common/templates.py:25 | with the empty input, the result is the pieces between placeholders, in order, 9 characters shorter per placeholder |
| `Templates.PlaceholderNoBorder` | src/openbiollm_inference/common/templates.py:25 | `{{input}}` cannot overlap itself, so its occurrences are well defined |
| `FastApiApp.Health` | src/openbiollm_inference/serve_gpu/fastapi_app.py:57-59 | `/health` is always 200 with status "ok" and the configured model id |
| `FastApiApp.ExtractSystem` | src/openbiollm_inference/serve_gpu/fastapi_app.py:61-74 | total; the result never has surrounding whitespace; if either tag is absent, the result is exactly the default prompt |
| `FastApiApp.ExtractBetween` | src/openbiollm_inference/serve_gpu/fastapi_app.py:68-71 | when the first system tag is at i and the first user tag from i+10 on is at j, the result is `strip(template[i+10:j])` |
| `FastApiApp.ExtractWellFormed` | src/openbiollm_inference/serve_gpu/fastapi_app.py:66-71 | `pre <\|system\|> mid <\|user\|> post` with no system tag in `pre` and no user tag in `mid` yields `strip(mid)` |
| `FastApiApp.ExtractUserTagOnlyBefore` | src/openbiollm_inference/serve_gpu/fastapi_app.py:68-74 | both tags present but the user tag only before the first system tag: the default prompt, no error escapes |
| `FastApiApp.DefaultMentionsClinicalAssistant` | tests/test_templates.py:13-17 | the default prompt contains "clinical assistant" |
| `FastApiApp.BuildRequest` | src/openbiollm_inference/serve_gpu/fastapi_app.py:82-94 | the payload has exactly two messages, system (the extracted prompt) then user (the input verbatim), `stream` false, the configured model and max tokens, the chat-completions URL and a bearer token |
| `FastApiApp.ParseCompletion` | src/openbiollm_inference/serve_gpu/fastapi_app.py:107-118 | fails exactly on a malformed body: `choices` missing or empty, `message`/`content` missing or null, or `usage` null. Otherwise the text is `choices[0].message.content` unstripped, each count is `usage.get(key)` (null when `usage` or the key is missing), and the latency is stamped |
| `FastApiApp.ParseChatReply` | src/openbiollm_inference/serve_gpu/fastapi_app.py:107-115 | content `c` gives text `c` unstripped, and the counts are the usage values when present and null otherwise |
| `FastApiApp.Generate` | src/openbiollm_inference/serve_gpu/fastapi_app.py:77-118 | 200 exactly when the reply to the built request is a 2xx JSON object that is not malformed, and then the body is what `ParseCompletion` reads; every error is 502 "Upstream vLLM error" or 500 "Malformed vLLM response" |
| `FastApiApp.WellFormedReplyIsOk` | src/openbiollm_inference/serve_gpu/fastapi_app.py:107-115 | a 2xx JSON object with the expected fields gives `Ok` carrying exactly the parsed output |
| `FastApiApp.UpstreamFailureIs502` | src/openbiollm_inference/serve_gpu/fastapi_app.py:96-104 | a transport error, a non-2xx status or a non-JSON body gives 502 and never a success body |
| `FastApiApp.MalformedIs500` | src/openbiollm_inference/serve_gpu/fastapi_app.py:116-118 | a 2xx reply that is not an object or lacks the expected fields gives 500 |
| `FastApiApp.MockedUpstream` | tests/test_fastapi_app.py:49-58 | the mocked upstream ("Hello test", usage 10/5) gives 200 with text "Hello test", 10 and 5 |
| `RunGguf.ExtractSystem` | src/openbiollm_inference/local_m1/run_gguf.py:28-38 | the copy computes the same function as the proxy's, so every lemma above holds of it |
| `RunGguf.ExtractSystemSameContract` | src/openbiollm_inference/local_m1/run_gguf.py:28-38 | the copy is total and trimmed, and falls back to the same default string |
| `RunGguf.ResolveSettings` | src/openbiollm_inference/local_m1/run_gguf.py:48-68 | succeeds exactly when `model_path` is given and exists and no integer setting is null; it keeps the path and the `stop` list; each of `n_ctx`, `n_gpu_layers` and `max_tokens` is the configured value, or its own default (8192, -1, 512) when missing |
| `RunGguf.DefaultSettings` | src/openbiollm_inference/local_m1/run_gguf.py:55-66 | the defaults: `n_ctx` 8192, `n_gpu_layers` -1, `max_tokens` 512, `stop` [] when missing or null |
| `RunGguf.ModelNotFoundFirst` | src/openbiollm_inference/local_m1/run_gguf.py:49-51 | a nonexistent model path is a not-found error |
| `RunGguf.Normalize` | src/openbiollm_inference/local_m1/run_gguf.py:91-97 | the text is stripped; each count is the reported value, or 0 when `usage` or the key is absent; it fails exactly when `usage` or a count is null |
| `RunGguf.NormalizeChat` | src/openbiollm_inference/local_m1/run_gguf.py:90-97 | fails exactly on a malformed chat completion; otherwise the result is `Normalize` of `str(choices[0].message.content)` with the body's `usage`, so the text is trimmed and the latency stamped |
| `RunGguf.NormalizeLegacy` | src/openbiollm_inference/local_m1/run_gguf.py:108-115 | fails exactly on a malformed legacy completion; otherwise the result is `Normalize` of `str(choices[0].text)` with the body's `usage`, so the text is trimmed and the latency stamped |
| `RunGguf.NormalizeChatReply` | src/openbiollm_inference/local_m1/run_gguf.py:90-97 | content `c` gives `strip(c)`, and the counts are the usage values or 0 when usage or the key is absent |
| `RunGguf.NormalizeLegacyReply` | src/openbiollm_inference/local_m1/run_gguf.py:108-115 | text `t` gives `strip(t)`, with the same default-0 rule |
| `RunGguf.NullContentReadsNone` | src/openbiollm_inference/local_m1/run_gguf.py:90-93 | a null content gives the text "None" (`str(None)`), not an error |
| `RunGguf.NormalizersAgree` | src/openbiollm_inference/local_m1/run_gguf.py:90-97 | on a body both runners accept, the runner's text is the proxy's text stripped, and its counts are the proxy's with null read as 0 |
| `RunGguf.ChatMessages` | src/openbiollm_inference/local_m1/run_gguf.py:74-78 | exactly two messages: system (the extracted prompt), then user (the caller's text verbatim) |
| `RunGguf.ChatAttempt` | src/openbiollm_inference/local_m1/run_gguf.py:73-98 | the chat path fails exactly when the engine raises or the completion is malformed |
| `RunGguf.LegacyAttempt` | src/openbiollm_inference/local_m1/run_gguf.py:98-115 | an engine failure exactly when the call raised; a returned completion succeeds exactly when it is not malformed, with the value `NormalizeLegacy` gives, and otherwise is a malformed-completion error |
| `RunGguf.Generate` | src/openbiollm_inference/local_m1/run_gguf.py:40-115 | configuration errors propagate unchanged; every success has trimmed text and the latency of the attempt that produced it |
| `RunGguf.GenerateModelNotFound` | src/openbiollm_inference/local_m1/run_gguf.py:49-51 | a missing model file is a not-found error, whatever the engines would do |
| `RunGguf.GenerateChatFirst` | src/openbiollm_inference/local_m1/run_gguf.py:73-97 | a usable chat completion is the result, and the legacy engine is never consulted |
| `RunGguf.GenerateFallsBack` | src/openbiollm_inference/local_m1/run_gguf.py:98-105 | any chat-path failure switches to the legacy path, which is sent exactly `render_prompt(template, text)` |
| `RunGguf.GenerateLegacyFailurePropagates` | src/openbiollm_inference/local_m1/run_gguf.py:98-115 | after a raised or malformed chat attempt, a raised legacy call is an engine failure and a malformed legacy completion a malformed-completion error; there is no third attempt |

## Left out

- Reading the template file (`load_template`), parsing the YAML config (`load_cfg`) and reading environment variables: the model takes their results as values.
- Loading the model (`Llama(...)`), the llama.cpp calls and the HTTP client: the model takes their outcomes as functions of the request. A failure while loading the model is not modelled.
- Wall-clock latency: it is a `nat` parameter. The source measures it with `time.time()`, which is not monotonic, so the source can report a negative latency, which the model does not represent.
- Floating-point sampling settings (`temperature`, `top_p`, `repeat_penalty`) and their `float(...)` conversions: they are not part of the requests as modelled.
- `int(...)` and `str(...)` applied to values of other JSON types: a config or usage value is an integer or null, and content is a string or null. Python's coercion of strings, floats and booleans is not modelled, nor is `list(...)` of a non-list `stop`.
- The proxy's pydantic validation of `GenerateOut` is modelled only for a null `text`. Its coercion of other value types is not.
- JSON values of the wrong shape are not modelled: a `choices` that is not a list, a `choices[0]` or `message` that is not an object, or a `usage` that is not an object. The source raises on each: the proxy answers 500, and the GGUF runner falls back (chat path) or lets the error escape (legacy path).
- FastAPI routing, the startup template check (it only logs) and the `main` CLI entry points.
- `local_m1/run_mlx.py`, `serve_gpu/vllm_server.py` and `common/logging_setup.py`. The MLX runner only renders the prompt and reports −1 for both token counts. The other two only launch a process and configure logging.
