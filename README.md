# Visual-inspection prompt generator: a verified model of its core

This Dafny project models the core of a tool that evaluates product images against
a written inspection specification. It has five parts:

- **Prompt bundle builder** (`PromptFactory`): the system prompt and the
  `{spec_text, instruction}` user payload.
- **Provider record and dispatch** (`LlmProviders`, `ProviderDispatch`): the
  `LLMProvider` record and its defaults, and the case-insensitive choice between the
  OpenAI and Gemini backends. Each backend is answered either by the authoring-time
  demo stubs or by the live clients that the generated app installs.
- **Evaluator** (`VisionEval`): `run_vision_eval` builds the system and user messages
  for one image. It then normalises the returned decision in place, so that its
  verdict is OK or NG and it has a `details` field.
- **Runtime client** (`RuntimeClient`): the vision client the generator embeds in the
  runtime app. It covers message splitting and data-URI parsing, two-stage JSON
  recovery, error-text extraction, the per-provider request bodies, and the
  error-recovery protocol: truncation, one retry without temperature, and ERROR.
  The transport is a scripted pair of HTTP outcomes, so every run states exactly
  which requests were sent.
- **Generator** (`Generator`, `EnvFile`): the generator picks a file name that does
  not collide, strips authoring-only keys from the bundle, composes the app text and
  copies the optional files. `EnvFile` holds the `.env` helpers embedded in the
  generated app: the line parser, the export to the environment, and the merge-only
  write.
- **Few-shot store** (`FewShot`): an append-only JSON Lines file, read back with an
  optional limit on raw lines.

Supporting modules: `Text` (Python string operations: `strip`, `find`, `rfind`,
`in`, `splitlines`, `join`, `str(int)`, ASCII `upper`/`lower`), `Json` (JSON-shaped
values, truthiness, the abstract codec, the exceptions the core raises) and `Host`
(files as a map from path to text, plus the process environment).

Abstractions:
- JSON and `str()` are one `Codec` value of total functions. `decode` is partial
  (`None` for a `JSONDecodeError`). Lemmas that need more assume `Lawful(codec)`:
  `loads(dumps(v)) == v`, and `str()` of a string is that string.
- HTTP is a `Script` of two outcomes: the reply to the first POST, and the reply to
  the retry if one is sent.
- The filesystem is a `map<Path, string>`; existence is membership.
- The image is its width, its height and its PNG base64 text.

## Model

| member | source | states |
|---|---|---|
| `Generator.EnsureUniquePath` | scripts/generate_runtime_app.py:447-457 | If the path does not exist, it is returned unchanged. Otherwise the result is `stem_k+suffix` for the least k ≥ 1 whose candidate does not exist: the result never exists and every smaller counter exists. The loop is proved to terminate. |
| `Generator.ChoiceIsUnique` | scripts/generate_runtime_app.py:447-457 | The chosen path is determined by the set of existing paths. |
| `Generator.CandidateKeepsSuffix` | scripts/generate_runtime_app.py:450-454 | A candidate keeps the directory and the extension; its stem is the old stem, `_` and the counter. |
| `Generator.CandidateInjective` | scripts/generate_runtime_app.py:454 | Different counters give different candidate names. |
| `Generator.SanitizePromptBundle` | scripts/generate_runtime_app.py:11-19 | The in-place pops on the copy give exactly the value `Sanitized(bundle)`. The caller's bundle is a value and is never changed. |
| `Generator.SanitizeKeeps` | scripts/generate_runtime_app.py:11-19 | The top-level keys are the input's keys plus `user`, minus `few_shots`. Every other key keeps its value. A dict `user` loses `roi_map` and nothing else. A missing `user` becomes `{}`. |
| `Generator.SanitizeFailures` | scripts/generate_runtime_app.py:14-16 | Sanitising raises exactly when `user` cannot be searched or popped. It raises AttributeError for a str holding "roi_map", and TypeError for a list holding it or for None, a bool or a number. |
| `Generator.SanitizeIdempotent` | scripts/generate_runtime_app.py:11-19 | Sanitising a sanitised bundle gives the same bundle. |
| `Generator.SanitizeBuiltBundle` | scripts/generate_runtime_app.py:11-19 | A bundle from `build_prompt_bundle` passes through the sanitiser unchanged. |
| `Generator.AugmentLlmModuleSource` | scripts/generate_runtime_app.py:153-411 | The original source is a prefix of the result, followed by a blank line and the runtime clients. |
| `Generator.RewriteIgnoresSource` | scripts/generate_runtime_app.py:414-444 | The rewritten evaluation module is the same fixed text whatever source is passed in. |
| `Generator.LoadSource` | scripts/generate_runtime_app.py:141-150 | A missing module raises FileNotFoundError with the fixed message. Otherwise the result is the stripped file text. |
| `Generator.AppLayout` | scripts/generate_runtime_app.py:120-129 | The app text starts with the header, a blank line, the provider marker and a blank line. It contains the original provider source followed by the clients, the evaluation module, and the UI with the bundle JSON. It ends with a newline. |
| `Generator.GenerateRuntimeApp` | scripts/generate_runtime_app.py:22-138 | It picks the path as `EnsureUniquePath` does. The result and the new files equal `GenerateSpec`: sanitise, load both sources, write the composed app, then copy the extras. The environment is unchanged. |
| `Generator.GeneratedApp` | scripts/generate_runtime_app.py:22-138 | A successful run returns the chosen path and its name relative to the output directory. That path did not exist before and now holds the composed app. The only files created are the app and the two copy targets. No other file changes. Each copy target holds the text of its source in the working directory, for every extra that exists. |
| `Generator.CopyExtrasEffect` | scripts/generate_runtime_app.py:134-136 | Copying removes no file, creates no file but the copy targets, and changes no other file. It fails with SameFileError iff the output directory is the working directory and an extra exists there; it has then copied nothing. On success each target holds its source's text, for every extra that exists. |
| `Generator.AppNameNotExtra` | scripts/generate_runtime_app.py:24-25 | The app path never takes the name of a copied extra, so the copies never overwrite the app. |
| `Generator.MissingSourceWritesNothing` | scripts/generate_runtime_app.py:28-31 | A missing provider or evaluation source raises FileNotFoundError before any file is written. |
| `Generator.SameDirectoryFails` | scripts/generate_runtime_app.py:134-136 | A failing copy is not tolerated. Generating into the working directory while an extra exists there raises SameFileError after the app was written. |
| `EnvFile.ReadEnvFile` | scripts/generate_runtime_app.py:49-58 | Reading gives `ReadEnv`: `{}` without a file, otherwise the dict built from the file's lines. |
| `EnvFile.ParseEnvLines` | scripts/generate_runtime_app.py:52-57 | The line loop builds exactly `ParseLines(lines)`. |
| `EnvFile.ParseLine` | scripts/generate_runtime_app.py:53-57 | A line is ignored iff, once stripped, it is empty, starts with `#` or has no `=`. Otherwise it gives the stripped text before its first `=` as key and the stripped rest as value. |
| `EnvFile.ParseStep` | scripts/generate_runtime_app.py:53-57 | An ignored line leaves the dict unchanged. A parsed line sets its key to its value, so a later duplicate wins, and the key keeps its first position. |
| `EnvFile.ReadEnvValid` | scripts/generate_runtime_app.py:49-58 | The dict read has distinct keys in insertion order, matching its values. |
| `EnvFile.ParseLineWellFormed` | scripts/generate_runtime_app.py:53-57 | Every parsed key and value is stripped and has no line break. The key has no `=` and does not start with `#`. |
| `EnvFile.RenderRoundTrip` | scripts/generate_runtime_app.py:76-77 | Writing a well-formed dict as `KEY=VALUE` lines and reading the file back gives the same dict, keys and order included. |
| `EnvFile.ApplyEnv` | scripts/generate_runtime_app.py:61-64 | The environment and the exception raised, if any, are `Applied(old, env)`: the entries are assigned in order, and the first refused one stops the loop with the earlier assignments kept. Files are unchanged. |
| `EnvFile.AppliedFails` | scripts/generate_runtime_app.py:61-64 | The export raises iff some entry with a non-empty value has an empty name, a name with `=`, or a NUL character in name or value. |
| `EnvFile.AppliedEffect` | scripts/generate_runtime_app.py:61-64 | When the export does not raise, exactly the entries with a non-empty value are exported, and every other variable keeps its presence and value. |
| `EnvFile.FaultSticks` | scripts/generate_runtime_app.py:62-64 | Once an assignment has raised, later entries change nothing. |
| `EnvFile.EmptyNameFails` | scripts/generate_runtime_app.py:62-64 | A first entry with an empty name and a value raises before anything is exported. |
| `EnvFile.LoadEnvAtStartup` | scripts/generate_runtime_app.py:82-83 | At import the app reads the `.env` file and exports it as `ApplyEnv` does, raising on a refused entry. |
| `EnvFile.StartupWithEmptyNameFails` | scripts/generate_runtime_app.py:49-64 | A `.env` file whose line is `=x` makes the import raise. |
| `EnvFile.MergeUpdates` | scripts/generate_runtime_app.py:68-74 | The update loop computes `Merge(read, updates)`: the merged dict and the `changed` flag. |
| `EnvFile.ExportedUpdates` | scripts/generate_runtime_app.py:78 | The comprehension keeps exactly the updates whose stripped value is non-empty, stripped. |
| `EnvFile.WriteEnv` | scripts/generate_runtime_app.py:67-79 | The file is rewritten with the merged dict only when the merge flag is true, and is otherwise unchanged. The stripped non-empty updates are exported as `ApplyEnv` does. It returns the flag, or the exception of a refused update after the file was written. |
| `EnvFile.MergeChangedIff` | scripts/generate_runtime_app.py:69-75 | The flag is true iff some stripped, non-empty update differs from the stored value. When it is false, the dict is the one read. |
| `EnvFile.MergeContents` | scripts/generate_runtime_app.py:70-74 | The merge removes no key and keeps the old keys first, in order. It stores every stripped non-empty update. Every other value is unchanged. |
| `EnvFile.WriteNeverRemoves` | scripts/generate_runtime_app.py:67-79 | Every key read from the file survives the write. Every non-empty stripped update is stored. |
| `EnvFile.WriteThenRead` | scripts/generate_runtime_app.py:67-79 | For well-formed updates, reading the file after `_write_env` gives the merged dict, whether or not it was rewritten. |
| `RuntimeClient.DataUriParts` | scripts/generate_runtime_app.py:177-183 | A data URI without a comma raises the unpacking ValueError. Otherwise the URI is the header, a comma and the returned data. The mime type is non-empty and has no comma. |
| `RuntimeClient.DataUriWithParameters` | scripts/generate_runtime_app.py:178-183 | `data:<mime>;<params>,<data>` gives `(mime, data)`. |
| `RuntimeClient.DataUriWithoutParameters` | scripts/generate_runtime_app.py:179-182 | A header without `;` falls back to `image/png`, whatever type it names. |
| `RuntimeClient.DataUriEmptyMime` | scripts/generate_runtime_app.py:179-182 | A header `data:;<params>` names an empty type, which falls back to `image/png`. |
| `RuntimeClient.DataUriOfPng` | scripts/generate_runtime_app.py:177-183 | The URI made by `pil_to_datauri` gives `("image/png", base64)`. |
| `RuntimeClient.SplitMessages` | scripts/generate_runtime_app.py:163-186 | The loop over the messages computes `SplitAll`: the last system text, the last user text, image URI and inline data. A bad data URI stops it. |
| `RuntimeClient.SplitAllStopsAtFault` | scripts/generate_runtime_app.py:168-183 | Once a message raises, later messages change nothing. |
| `RuntimeClient.BraceSpan` | scripts/generate_runtime_app.py:196 | The greedy DOTALL match of `\{.*\}` is found iff the first `{` comes before the last `}`. It is the text from that `{` to that `}`. |
| `RuntimeClient.ParseJsonResponse` | scripts/generate_runtime_app.py:189-203 | Empty text gives NG with the fallback or "empty response". Text that decodes gives its value. Otherwise a decodable brace span gives its value. Otherwise the result is NG with the fallback or the raw text. It never raises. |
| `RuntimeClient.RecoversWrappedObject` | scripts/generate_runtime_app.py:193-199 | An object wrapped in prose without braces is recovered whole. |
| `RuntimeClient.EnvelopeMessage` | scripts/generate_runtime_app.py:210-214 | A message is found iff `error` is a dict holding a truthy `message`, and it is that value. |
| `RuntimeClient.ExtractErrorDetails` | scripts/generate_runtime_app.py:206-218 | A body that is not a JSON object gives the body text, or `HTTP <status>` when the body is empty. A JSON object gives its `error.message` when that is truthy (through `str()` when not a string), and otherwise `str(payload)`. An empty result only comes from a decodable body. |
| `RuntimeClient.ErrorMessageFromEnvelope` | scripts/generate_runtime_app.py:209-214 | A standard envelope `{"error": {"message": m}}` gives `m`. |
| `RuntimeClient.TextPartTextsAppend` | scripts/generate_runtime_app.py:300-302 | Selecting the texts of the `text` parts distributes over concatenation of content lists, so the order of texts is the order of parts. |
| `RuntimeClient.OpenAITexts` | scripts/generate_runtime_app.py:300-302 | It succeeds iff every part is a dict and every `type == "text"` part has a string `text` (default ""). It then gives exactly the texts of the `type == "text"` parts, in order. |
| `RuntimeClient.OpenAIText` | scripts/generate_runtime_app.py:298-304 | For a list content, the texts of its text parts joined by newlines; otherwise `str(content)`; stripped either way. |
| `RuntimeClient.Fallback` | scripts/generate_runtime_app.py:305-309 | The fallback is the truncation message iff the finish field equals the given reason, and none otherwise. |
| `RuntimeClient.OpenAIReply` | scripts/generate_runtime_app.py:291-311 | A body that is not JSON raises JSONDecodeError; falsy `choices` raises RuntimeError with the fixed message. On success `output_text` is the reply text of `choices[0].message.content`, and `json` is that text parsed with the truncation fallback iff `finish_reason` is `length`. A readable first choice always succeeds. |
| `RuntimeClient.GeminiTexts` | scripts/generate_runtime_app.py:396-397 | It succeeds iff every part gets through `"text" in part`, `.get` and the join: a dict whose `text`, if any, is a string, a string without "text", or a list not holding "text". It then gives the texts of the dict parts that hold a string `text`, in order. |
| `RuntimeClient.GeminiPartsTexts` | scripts/generate_runtime_app.py:396-397 | A list of parts is read part by part. A string gives no text. A dict gives no text when no key contains "text", and raises otherwise. None, a bool or a number raises. |
| `RuntimeClient.GeminiReply` | scripts/generate_runtime_app.py:389-404 | A body that is not JSON raises. No candidates gives the empty text and NG "empty response". With candidates, the reply is read iff `candidates[0]` is a dict whose `content` is a dict whose `parts` can be read; otherwise it raises. When read, `output_text` is the stripped concatenation of the texts of `candidates[0].content.parts`, and `json` is that text parsed with the truncation fallback iff `finishReason` is `MAX_TOKENS`. |
| `RuntimeClient.TruncatedUnparseableReplyIsNg` | scripts/generate_runtime_app.py:305-310 | On success, a reply text that neither decodes nor holds a decodable brace span is NG with the truncation message when the finish reason is `length` / `MAX_TOKENS`, and NG with the text itself (or "empty response") otherwise. |
| `RuntimeClient.Exchange` | scripts/generate_runtime_app.py:267-290 | The requests sent are `[request]` or `[request, retry]`. Two are sent iff the first answer is an HTTP error whose text is not a truncation and asks for the default temperature. |
| `RuntimeClient.TruncationNeverRetries` | scripts/generate_runtime_app.py:271-279 | A truncation error, tested first, gives ERROR with the fixed message and the raw error as `note`. One request is sent. |
| `RuntimeClient.FailedRetryReportsSecondError` | scripts/generate_runtime_app.py:280-288 | When the retry also fails, the result is ERROR with the second response's details. |
| `RuntimeClient.SucceededRetryReadsReply` | scripts/generate_runtime_app.py:280-291 | When the retry succeeds, its reply is parsed normally. |
| `RuntimeClient.OtherErrorNoRetry` | scripts/generate_runtime_app.py:289-290 | Any other HTTP error gives ERROR with the raw details and no retry. |
| `RuntimeClient.SuccessReadsReply` | scripts/generate_runtime_app.py:267-269 | A first answer that is not an HTTP error is parsed and not retried. |
| `RuntimeClient.OpenAIContent` | scripts/generate_runtime_app.py:227-233 | The content list is the text if non-empty, then the image if truthy. It is one empty text when there is neither. |
| `RuntimeClient.OpenAIPayload` | scripts/generate_runtime_app.py:235-246 | The body has model, messages and `response_format`. `temperature` is present iff it is neither None nor 1. `max_completion_tokens` is present iff `max_tokens` is non-zero. There are no other keys. |
| `RuntimeClient.PromptText` | scripts/generate_runtime_app.py:320 | The prompt is the non-empty ones of the system and user texts, joined by a blank line. |
| `RuntimeClient.GeminiParts` | scripts/generate_runtime_app.py:321-326 | The parts are the prompt text if non-empty, then the inline image if any. Otherwise they are one part with the empty prompt. |
| `RuntimeClient.GenerationConfig` | scripts/generate_runtime_app.py:327-331 | `temperature` is present iff it is neither None nor 1. `maxOutputTokens` is present iff `max_tokens` is non-zero. |
| `RuntimeClient.GeminiPayload` | scripts/generate_runtime_app.py:332-341 | The body is exactly contents, `generationConfig` and `responseMimeType` `application/json`. |
| `RuntimeClient.RetryDropsOnlyTemperature` | scripts/generate_runtime_app.py:280-282 | The retry body lacks temperature and keeps the token limit and the messages. |
| `RuntimeClient.OpenAIChatSpec` | scripts/generate_runtime_app.py:221-311 | An empty or whitespace key raises before any request. The first request goes to the chat-completions URL with the stripped key as bearer token. At most two requests are sent. |
| `RuntimeClient.GeminiChatSpec` | scripts/generate_runtime_app.py:314-404 | An empty or whitespace key raises before any request. The first request carries no Authorization header. At most two requests are sent. |
| `RuntimeClient.OpenAIRequestsAuthorized` | scripts/generate_runtime_app.py:247-283 | Every OpenAI request has the same URL and bearer token. The retry differs from the first request only in `temperature`, which it lacks. |
| `RuntimeClient.ExchangeKeepsAddress` | scripts/generate_runtime_app.py:282-283 | The retry goes to the same URL with the same headers. |
| `RuntimeClient.GeminiRequestsUnauthorized` | scripts/generate_runtime_app.py:342-351 | Every Gemini request goes to the first request's URL, which carries the key, and has no Authorization header. |
| `RuntimeClient.GeminiRetryDropsTemperature` | scripts/generate_runtime_app.py:378-381 | The Gemini retry keeps the contents. Its `generationConfig` is the first one without `temperature`. |
| `RuntimeClient.BuildOpenAIPayload` | scripts/generate_runtime_app.py:227-246 | The appends and key assignments build exactly `OpenAIPayload`. |
| `RuntimeClient.BuildGeminiPayload` | scripts/generate_runtime_app.py:320-341 | The appends and key assignments build exactly `GeminiPayload`. |
| `RuntimeClient.Send` | scripts/generate_runtime_app.py:365-388 | The POST, `raise_for_status` and recovery steps compute `Exchange`. |
| `RuntimeClient.OpenAIChat` | scripts/generate_runtime_app.py:221-311 | `_runtime_openai_chat` computes `OpenAIChatSpec`. |
| `RuntimeClient.GeminiChat` | scripts/generate_runtime_app.py:314-404 | `_runtime_gemini_chat` computes `GeminiChatSpec`. |
| `LlmProviders.SelectProvider` | src/llm_providers.py:21-28 | The result is OpenAI iff the lower-cased name is "openai", and Gemini iff it is "gemini". Any other name raises ValueError "Unsupported provider". |
| `LlmProviders.SelectIgnoresCase` | src/llm_providers.py:23-26 | Names equal up to case select the same backend. |
| `LlmProviders.DefaultsSelectOpenAI` | src/llm_providers.py:7-11 | The defaults are "OpenAI", "", 0.2 and 1024. They select the OpenAI backend, and 0.2 is a temperature that is sent. |
| `LlmProviders.PilToDataUri` | src/llm_providers.py:14-19 | The image is sent as a `data:` URI. |
| `ProviderDispatch.ChatSpec` | src/llm_providers.py:21-28 | An unsupported name raises before any request. The demo stubs send nothing. At most two requests are sent. |
| `ProviderDispatch.ChatVision` | src/llm_providers.py:21-28 | `chat_vision` computes `ChatSpec`. |
| `ProviderDispatch.DemoRepliesAreFixed` | src/llm_providers.py:30-37 | The demo OpenAI stub answers OK and the Gemini stub NG, both with "demo response", whatever the messages, and send nothing. |
| `ProviderDispatch.LiveRequestsGoToSelectedBackend` | scripts/generate_runtime_app.py:407-408 | With the live clients installed, requests carry a bearer token iff the name selects OpenAI. |
| `PromptFactory.BuildPromptBundle` | src/prompt_factory.py:10-21 | The bundle has exactly `system` (`SYSTEM_PROMPT`) and `user`. `user` has exactly `spec_text`, the input verbatim (empty included), and the fixed `instruction`. |
| `PromptFactory.BundleHasNoAuthoringData` | src/prompt_factory.py:13-21 | A built bundle has no `few_shots` and no `roi_map`, and its spec text reads back exactly. |
| `VisionEval.EvalInstructionIsBundleInstruction` | src/vision_eval.py:12 | The evaluator's instruction is the bundle builder's instruction, word for word. |
| `VisionEval.EvalMessages` | src/vision_eval.py:8-19 | Exactly two messages are built, system then user. The user text is the JSON of spec_text, the instruction and the image size, sent with the data URI. A missing `system`, `user` or `spec_text` raises KeyError naming it. A `user` that is not a dict raises TypeError. |
| `VisionEval.EvalMessagesSplit` | src/vision_eval.py:16-19 | The live client splits these messages back into the system text, the JSON user text and the PNG inline data. |
| `VisionEval.NormalizeResult` | src/vision_eval.py:22-26 | A valid verdict in any case is kept as written. An invalid or missing one becomes "NG", with truthy details kept and otherwise the fixed message. `details` is added as "" only when absent. Every other key is unchanged. |
| `VisionEval.NormalizedVerdictIsValid` | src/vision_eval.py:22-26 | After normalisation `verdict.upper()` is OK or NG, and `details` is present. |
| `VisionEval.NormalizeIdempotent` | src/vision_eval.py:22-26 | Normalising a normalised result changes nothing. |
| `VisionEval.InvalidVerdictNeverOk` | src/vision_eval.py:23-24 | An invalid verdict is never turned into OK. |
| `VisionEval.ResultOf` | src/vision_eval.py:21 | A reply without `json` gives `{}`. A `json` that is not a dict raises AttributeError at `.get`. |
| `VisionEval.EvalSpec` | src/vision_eval.py:6-27 | A malformed bundle raises before any request. A returned decision always has `details`. |
| `VisionEval.EvalVerdictIsValid` | src/vision_eval.py:6-27 | A returned decision is the chat reply's `json`, normalised, after the requests of that one chat call. Its verdict upper-cases to OK or NG, and it has `details`. |
| `VisionEval.RunVisionEval` | src/vision_eval.py:6-27 | `run_vision_eval`, with its in-place item assignments, computes `EvalSpec`. |
| `VisionEval.DemoEvaluation` | src/vision_eval.py:20-27 | Either demo stub's decision passes through normalisation unchanged: OK for OpenAI, NG for Gemini. |
| `VisionEval.NoJsonIsNg` | src/vision_eval.py:21-26 | A reply without `json` gives `{"verdict": "NG", "details": <fixed message>}`. |
| `VisionEval.ErrorDecisionBecomesNg` | src/vision_eval.py:22-25 | An ERROR decision from the client becomes NG. Non-empty details and `checks` are kept. |
| `VisionEval.BuiltBundleEvaluates` | src/vision_eval.py:8-11 | A bundle from `build_prompt_bundle` always yields well-formed messages. |
| `FewShot.LineRecord` | src/fewshot.py:24-30 | A blank or undecodable line adds nothing and does not raise. Otherwise the line adds its decoded value. |
| `FewShot.Considered` | src/fewshot.py:21-23 | Only lines with index below the limit are considered. Blank and malformed lines count too. A limit ≤ 0 considers none. |
| `FewShot.Appended` | src/fewshot.py:12-14 | Appending adds the serialised record and "\n" at the end of the file, creating it if missing. Every other file is unchanged. |
| `FewShot.FewShotStore.constructor` | src/fewshot.py:5-10 | An empty file is created only when none exists. An existing file is never truncated. |
| `FewShot.FewShotStore.Append` | src/fewshot.py:12-14 | The files become `Appended(old files, path, record)`. |
| `FewShot.FewShotStore.LoadAll` | src/fewshot.py:16-31 | The result is `[]` without a file, otherwise the records of the considered lines. |
| `FewShot.LoadLines` | src/fewshot.py:20-31 | The enumerate loop with `break` and `continue` computes the records of the considered lines. |
| `FewShot.RecordsAppend` | src/fewshot.py:20-31 | The records of consecutive line chunks are consecutive, so record order is line order. |
| `FewShot.RecordsBound` | src/fewshot.py:24-30 | A line yields at most one record. |
| `FewShot.LoadBound` | src/fewshot.py:21-23 | With a limit, at most that many records come back. |
| `FewShot.LimitedIsPrefix` | src/fewshot.py:21-23 | The limited load is a prefix of the unlimited one. |
| `FewShot.BlankLineCountsAgainstLimit` | src/fewshot.py:21-26 | With limit 1, a blank first line means nothing is returned, whatever follows. |
| `FewShot.InitKeepsRecords` | src/fewshot.py:8-10 | Creating the store never changes what `load_all` returns. |
| `FewShot.AppendThenLoad` | src/fewshot.py:12-14 | For a lawful one-line codec and a newline-terminated file, appending adds exactly that record at the end of `load_all`. |

## Where the model follows the code rather than the stated intent

The project's documented intent differs from its code in these places. The model
follows the code.

- **Temperature retry.** The intent is to retry without temperature only when a
  temperature was sent. The client retries whenever the error text asks for the
  default, even if no temperature was sent.
- **Copy failures.** The intent is that copying `requirements.txt` / `.env.example`
  is best-effort. A failing copy is not caught and aborts generation after the app
  file was written.
- **Non-dict `json`.** The intent is that evaluation never raises. `run_vision_eval`
  raises AttributeError when the client's `json` is not a dict, which happens when
  the extracted text decodes to a list or a number.
- **ERROR verdicts.** The intent is that callers see an ERROR verdict for a rejected
  request. `run_vision_eval` turns it into NG.
- **Existing environment variables.** The intent is that the `.env` file supplies only
  keys not already set in the process. `_apply_env` assigns every non-empty entry, so
  the file overrides variables already set, and `EnvFile.ApplyUpTo` does the same.
- **Bundle builder.** The intent is a builder that also takes the exemplar history,
  keeping at most the six most recent, and a bundle whose spec text is non-empty.
  `build_prompt_bundle` takes no exemplars and does not check the spec text.

## Left out

- The Streamlit UI: the authoring app and the generated UI text. The UI text is an
  opaque `Texts.uiRest`.
- The text of the generated header and client augmentation is opaque. The code in
  that text is modelled separately, as `EnvFile` and `RuntimeClient`.
- Real HTTP: timeouts, headers other than Authorization, and `requests` itself. A
  transport failure is the `Unreachable` outcome and propagates.
- JSON encoding and decoding, `json.dumps(indent=2)` and Python's `str()`: abstract
  functions in `Codec` / `Texts.pretty`.
- PIL and base64: the image is its size and its base64 text.
- Debug printing and redaction, and the unconditional Gemini message print: console
  output only.
- `os.makedirs` for the output and data directories: directories are not modelled.
  `FewShot.FewShotStore.constructor` therefore creates a store at a bare file name,
  where `os.makedirs("")` raises FileNotFoundError in the source.
- The deep copy through `json.loads(json.dumps(...))` is an identity on values. The
  model does not capture what a JSON round trip would change: non-string keys, tuples
  and non-JSON values.
- `Generator.GenerateRuntimeApp`: a copy is taken to fail only when the output
  directory is the literal working directory `.`, not when it resolves to the same
  place by another spelling.
- The race between the existence check and the write under concurrent generation:
  concurrency is not modelled.
- Line splitting is at `\n` only. `str.splitlines()` also splits at `\r`, `\x0b`,
  `\x0c`, `\x1c`–`\x1e`, `\x85`, U+2028 and U+2029, and text-mode reads translate
  `\r\n`. The model does not capture those separators.
- `Text.Upper` / `Text.Lower`: only ASCII letters change case. No other character's
  Python case mapping produces the letters of OK, NG, openai or gemini, so the tests
  that use them are unaffected.
- `RuntimeClient.ExtractErrorDetails`: a truthy `error.message` that is not a string
  is returned through `str()`. The source returns the raw value, and a later `in`
  test on it would raise or behave as a container test.
- Malformed provider replies are reported as one `MalformedResponse` fault. Examples
  are choices that are not a list, and parts that are not dicts. The model does not
  say which Python exception (AttributeError, KeyError, TypeError) each one raises.
- JSON objects are unordered maps. Python dicts keep insertion order and
  `json.dumps` writes keys in that order, so the model cannot tell apart two bundles,
  payloads or replies that differ only in key order; the text of the embedded
  `PROMPT_BUNDLE` and of the JSON user payload depends on that order. The `.env`
  dict, whose order decides the file written, is modelled with its order.
- `EnvFile.Rejected`: which assignments `os.environ` refuses is stated as one fault,
  `EnvironmentRejected`, for ValueError and OSError alike; which of the two is raised
  depends on the Python version and the platform.
- Temperature is an optional real number. Its range and floating-point
  representation are not modelled.
