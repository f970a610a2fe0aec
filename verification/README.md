# Bug identifier API: the `find_bug` handler in Dafny

The bug identifier API has a single endpoint. It takes a code snippet and a
language label, asks a large-language-model provider (Gemini) to name the
likely bug, and returns the provider's JSON answer. If the answer is not JSON,
it returns a fallback `Unknown` record instead. The handler exists twice:
`api/app.py` mounts it at `/find-bug` and `api/find-bug.py` at `/`. The two
copies run the same checks and the same `try` block. They differ only in
their decorators, a few blank lines, and where `json` is imported.
This project models that handler as one pure function, `BugFinder.FindBug`,
and proves what it does at each stage:

- **Validation.** Blank code is refused first, with 400 "Code snippet cannot
  be empty". Then code with more than 30 lines is refused with 400 "Code
  snippet exceeds 30 lines". Lines are counted as `str.splitlines()` counts
  them.
- **Prompt.** A fixed template with the language and the code placed in it
  verbatim.
- **Reply.** With no candidates the text is `"{}"`. Otherwise it is the first
  part of the first candidate. Text that decodes is returned unchanged.
  Anything else becomes `{bug_type: "Unknown", description: text, suggestion: null}`.
- **Errors.** Every exception inside the `try` block, from the provider or
  from reading its reply, becomes a 500 with detail `"Error from LLM: " + message`.

Files:

- `wrappers.dfy`: `Option`, `Result` and `Outcome`.
- `pytext.dfy` (module `PyText`): Python's `str.strip()` and
  `str.splitlines()`. These use the exact `str.isspace()` and line-boundary
  character sets. The module also has an independent line count and
  round-trip lemmas.
- `json.dfy` (module `JsonValue`): decoded JSON values and the three-field
  bug report (`BugResponse`), with conversions in both directions.
- `bugfinder.dfy` (module `BugFinder`): the handler, its stages and the
  properties. It also holds the fixed list served by `sample_cases`.

The provider and `json.loads` are parameters of `FindBug`, not code:
`generate: string -> ProviderOutcome` is what the provider call does with a
given prompt: raise with a message, or reply with candidates, each a list of
part texts. `decode: string -> Option<Json>` is `json.loads`, with `None`
standing for a `JSONDecodeError`. Because they are parameters, "the provider is
never asked" can be stated as "the response does not depend on `generate`".

## Model

| member | source | states |
|---|---|---|
| PyText.Strip | zerotrail-bug-api/api/app.py:36 | `strip()` is empty exactly when the code is all whitespace; otherwise it starts and ends with a non-space character, and only whitespace was removed on either side |
| PyText.StripIdempotent | zerotrail-bug-api/api/app.py:36 | partner of `Strip`: stripping an already stripped text changes nothing |
| PyText.SplitLines | zerotrail-bug-api/api/app.py:39 | `splitlines()` yields lines free of line-break characters, and no lines exactly for the empty text |
| PyText.SplitLinesCount | zerotrail-bug-api/api/app.py:39 | the number of `splitlines()` lines equals an independently defined count: one per line boundary (`\r\n` counting once) plus one for an unterminated last line |
| PyText.SplitTerminated | zerotrail-bug-api/api/find-bug.py:29 | round trip: lines each followed by a line feed split back into exactly those lines |
| PyText.SplitJoined | zerotrail-bug-api/api/find-bug.py:29 | round trip: lines joined by line feeds split back into exactly those lines when the last is non-empty |
| PyText.TrailingNewlineAddsNoLine | zerotrail-bug-api/api/find-bug.py:29-30 | a trailing line feed after joined lines does not change the lines `splitlines()` yields |
| BugFinder.Validate | zerotrail-bug-api/api/app.py:36-40 | the empty check and the line check, in order: "cannot be empty" exactly for blank code, "exceeds 30 lines" exactly for non-blank code over 30 lines, and a pass exactly for 1 to 30 lines of non-blank code |
| BugFinder.BlankCodeRejected | zerotrail-bug-api/api/app.py:36-37 | blank code, the empty text included, gets 400 "Code snippet cannot be empty" whatever the provider and decoder |
| BugFinder.LongCodeRejected | zerotrail-bug-api/api/app.py:39-40 | non-blank code with more than 30 lines gets 400 "Code snippet exceeds 30 lines" |
| BugFinder.MaxLinesAccepted | zerotrail-bug-api/api/find-bug.py:29-30 | 30 lines joined by line feeds, the last one non-empty, pass with and without a trailing line feed whenever the text is not blank, even when its first line is blank |
| BugFinder.OneLineTooManyRejected | zerotrail-bug-api/api/find-bug.py:29-30 | 31 lines joined by line feeds, the last one non-empty, count 31 and are refused as too long whenever the text is not blank |
| BugFinder.BlankBeatsLineLimit | zerotrail-bug-api/api/app.py:36-40 | blank code with more than 30 lines gets the "cannot be empty" detail, never the line-limit one |
| BugFinder.RejectionSkipsProvider | zerotrail-bug-api/api/find-bug.py:27-33 | a refused snippet's response is the same whatever the provider and decoder, so neither is consulted before validation passes |
| BugFinder.RenderPrompt | zerotrail-bug-api/api/app.py:44-55 | the prompt is the fixed template around the language and the code, both placed verbatim at fixed offsets |
| BugFinder.PromptDeterminesCode | zerotrail-bug-api/api/find-bug.py:34-45 | for one language, different code gives a different prompt |
| BugFinder.PromptDeterminesLanguage | zerotrail-bug-api/api/find-bug.py:34-45 | for one code, different languages give different prompts |
| BugFinder.ProviderSeesOnlyPrompt | zerotrail-bug-api/api/app.py:44-56 | providers that answer the rendered prompt alike give the same response: the prompt is all the provider is given |
| BugFinder.ReplyText | zerotrail-bug-api/api/app.py:57 | the text is `"{}"` for no candidates and the first part of the first candidate otherwise, and an `IndexError` exactly when the first candidate has no parts |
| BugFinder.UnknownReport | zerotrail-bug-api/api/app.py:63 | the fallback report has bug type `Unknown`, which is outside the prompt's vocabulary, the raw text as description, and no suggestion |
| BugFinder.Normalize | zerotrail-bug-api/api/find-bug.py:48-51 | decodable text yields the decoded value unchanged; other text yields exactly the three-key `Unknown` record with the raw text and a `null` suggestion |
| BugFinder.Answer | zerotrail-bug-api/api/find-bug.py:46-53 | inside the `try` block every failure is a 500 whose detail starts with "Error from LLM: ", and a provider exception keeps its message verbatim after it |
| BugFinder.FindBug | zerotrail-bug-api/api/app.py:35-66 | the response is a 400 exactly when validation fails, with the empty-code detail for blank code and the line-limit one otherwise; every other error is a 500 with the provider prefix |
| BugFinder.NoCandidatesGivesEmptyObject | zerotrail-bug-api/api/app.py:57-61 | no candidates, with `"{}"` decoding to the empty object, gives the empty object and not the `Unknown` record |
| BugFinder.DecodedReplyReturned | zerotrail-bug-api/api/app.py:60-61 | reply text that decodes is returned as the decoded value, unchanged |
| BugFinder.UndecodableReplyFallsBack | zerotrail-bug-api/api/app.py:62-63 | reply text that does not decode gives exactly `{bug_type: "Unknown", description: text, suggestion: null}`, never a 500 |
| BugFinder.ProviderExceptionMapped | zerotrail-bug-api/api/app.py:65-66 | a provider exception gives 500 with detail "Error from LLM: " followed by the exception's message |
| BugFinder.MissingPartIsServerError | zerotrail-bug-api/api/app.py:56-66 | a first candidate without parts makes the extraction raise, which gives 500 with the prefix and the `IndexError` message |
| BugFinder.ServerErrorExactly | zerotrail-bug-api/api/find-bug.py:32-53 | the response is a 500 exactly when validation passed and the provider raised or its first candidate had no parts |
| BugFinder.ValidationDetailsUnprefixed | zerotrail-bug-api/api/find-bug.py:27-53 | a 400 detail never starts with "Error from LLM: " |
| BugFinder.InstructionsOfferVocabulary | zerotrail-bug-api/api/app.py:51 | the instructions of the template list every bug type of the vocabulary, and that line is built from the vocabulary |
| BugFinder.PromptOffersVocabulary | zerotrail-bug-api/api/find-bug.py:34-45 | every rendered prompt offers each bug type of the vocabulary, and `Unknown` is not among them |
| BugFinder.VocabularyAnswerIsNotFallback | zerotrail-bug-api/api/app.py:51-63 | a decoded answer whose bug type is one the prompt offers is never a fallback record |
| BugFinder.SampleCases | zerotrail-bug-api/api/app.py:69-87 | the sample list holds three reports, each with a bug type from the prompt's vocabulary and a suggestion |
| JsonValue.ToJson | zerotrail-bug-api/api/app.py:63 | a report becomes a three-key object whose `bug_type` and `description` are its strings and whose `suggestion` is `null` exactly when it has none |
| JsonValue.FromToJson | zerotrail-bug-api/api/app.py:28-31 | round trip: a report written as an object reads back as the same report |
| JsonValue.ToFromJson | zerotrail-bug-api/api/app.py:28-31 | round trip: a canonical three-key record read as a report and written back is the same record |

## Left out

- The Gemini SDK (`genai.configure`, `GenerativeModel`, `generate_content`) is not modelled. It is a network call, so it becomes the `generate` parameter. Its non-determinism appears only as the choice of that parameter.
- `json.loads` is not modelled. It becomes the `decode` parameter. No JSON parser is written, and no property of `json.loads` is assumed except where a lemma names it as a precondition (`"{}"` decoding to the empty object). Exceptions other than `JSONDecodeError` that `json.loads` might raise, such as `RecursionError` on deeply nested input, are not modelled.
- Output validation by FastAPI is not modelled. This covers `response_model=BugResponse` in `app.py`, and in `find-bug.py` a response model FastAPI may derive from the `Dict[str, str]` return annotation. In `app.py` such validation would reject the empty object from a reply without candidates. In `find-bug.py` it would reject the `null` suggestion of the fallback record. The model stops at the value the handler returns.
- Routing, CORS middleware, pydantic request parsing, the Mangum adapters and reading `GEMINI_API_KEY` from the environment are not modelled. They are framework and I/O glue.
- The model name `gemini-1.5-flash` is not modelled. It only selects a provider, and the provider is a parameter.
- The two `app.jsx` front ends are not modelled. They are UI state and `fetch` calls, and their `code.trim()` check is only a client-side approximation of the server's blank check, since JavaScript's `trim()` removes a different set of characters than Python's `strip()`.
- BugFinder.MissingPartMessage: the text of the `IndexError` raised for a first candidate without parts is a constant whose value is left open. It comes from the provider library's container type, which is not part of this model. Every property about it holds whatever the wording is.
- A part is reduced to its text. Parts without text, such as function calls, are not modelled.
- The source files are stored with CRLF line endings. Python's tokenizer turns these into `\n` inside the triple-quoted prompt, so the template here uses `\n`.
- The two handler copies differ only in their decorators (`app.py:34` against `find-bug.py:25`), a few blank lines, and `app.py` importing `json` inside the `try` block, an import that cannot fail. So one function models both, and no separate lemma that they coincide is stated.
- The handler has no markdown-fence stripping and no `result` wrapper key. The line limit is the literal 30. With no candidates it decodes the text `"{}"` rather than returning an `Unknown` record (`BugFinder.NoCandidatesGivesEmptyObject`).
- A provider that itself answers with an `Unknown` record gets the same response as an undecodable reply. The model does not tell the two apart, and neither does the handler.
