# Dava chat backend — verified model

This project models the core of a small chat bot that answers as the persona "Dava" through Google's Gemini models. It covers three Python files.

- **llm.py, `chat`.** The function runs in this order:
  - It checks the configuration: the provider, then the API key, then that the message list is not empty.
  - It converts the role-tagged messages except the last into two things: a system instruction (the system messages joined by newlines) and a Gemini history of `user`/`model` turns.
  - It builds a `GenerativeModel`. The model name is passed positionally first, and as `model_name=` only after a TypeError.
  - It starts a chat. If start_chat fails with an error whose text mentions "not found" or "unsupported", it falls back once to `gemini-1.5-flash`.
  - It sends the last message's content, or a single space if there is none.
  - It extracts the reply: the top-level text first, then the first candidate that has parts.
  - It re-raises its own `LLMError`s unchanged and wraps every other exception as `Gemini error: …`.
- **memory.py.** A JSON object maps each contact to its last 30 messages (`MAX_MESSAGES`). It offers `get_history`, `append_message` and `reset_history`.
- **persona.py.** The greeting (`sapaan`) is resolved in priority order: an explicit argument, then the intimate greeting when allowed, then `SAPAAN_DEFAULT`, then the contact's nickname, then the title-cased name. The target contact of the system prompt defaults to `TARGET_CONTACT`, then to "sopia".

Layout:
- `wrappers.dfy`: `Option` and `Result`.
- `text.dfy`: Python's `str.strip`, `str.lower`, truthiness and `in`.
- `llm.dfy`: the `chat` model.
- `chat_properties.dfy`: the properties of `chat`.
- `memory.dfy` and `persona.dfy`: the other two files.

The google-generativeai library is an oracle, `Llm.Client`, made of total functions. Each call `chat` makes to it is recorded in order as an `Llm.Call`. The contracts can therefore state which calls happen, how many, and with which arguments. `Llm.Chat` is the imperative `chat`, proved equal to the specification function `Llm.ChatSpec`. The lemmas of `ChatProperties` are stated about `ChatSpec`, or about its provider block `Converse` for every request.

Which member models which source lines, besides the rows below (these members are definitions; the rows name the lemmas and methods whose contracts state their properties):
- `Llm.ChatSpec` is `chat` as a whole (llm.py:9-115). `Llm.Converse` is its provider block (llm.py:52-115). `Llm.OpenSession` is the construction and fallback block (llm.py:62-97). `Llm.FallbackTriggered` is the fallback test (llm.py:80). `Llm.Reply` is the reply extraction (llm.py:103-111). `Llm.ProviderName` is the lowered provider (llm.py:14), `Llm.ModelName` the stripped model name (llm.py:19), `Llm.BuildRequest` the instruction, history and input handed to the provider (llm.py:26-45, 100), `Llm.Cleaned` the stripped content of one message (llm.py:37) and `Llm.ToTurn` its history entry (llm.py:44-45). `ChatProperties.AnswerTo` reads the library's answer to one recorded call.
- `Persona.AllowIntimateEnv` is `ALLOW_INTIMATE_ENV` (persona.py:32). `Persona.ResolveSapaan` is `_resolve_sapaan` (persona.py:34-41). `Persona.Target` and `Persona.BuildSystemPrompt` are the target and greeting of `build_system_prompt` (persona.py:54-56). `Persona.DefaultTarget` is `_DEFAULT_TARGET` (persona.py:22), `Persona.Nicknames` is `DEFAULT_NICKNAMES` (persona.py:27) and `Persona.SapaanIntimate` is `SAPAAN_INTIMATE` (persona.py:31).
- `Memory.MaxMessages` is `MAX_MESSAGES` (memory.py:13).

## Model

| member | source | states |
|---|---|---|
| Text.Strip | llm.py:37 | `strip` leaves no whitespace at either end and never makes a string longer |
| Text.StripSlice | llm.py:37 | the stripped string is a contiguous slice of the input, and everything around it is whitespace |
| Text.StripIdempotent | llm.py:104 | stripping an already stripped reply changes nothing |
| Text.StripEmptyIffBlank | llm.py:37-38 | a content is dropped as empty exactly when every character of it is whitespace |
| Text.ContainsAt | llm.py:80 | `sub in s` holds whenever `sub` occurs at some offset of `s` |
| Llm.ApiKey | llm.py:18 | a key exists iff GEMINI_API_KEY or GOOGLE_API_KEY is non-empty; GEMINI_API_KEY wins when both are |
| Llm.CheckConfig | llm.py:14-24 | no configuration error iff the lowered provider is "gemini", a key exists and the message list is non-empty |
| Llm.SystemParts | llm.py:35-41 | the collected system contents are at most one per message and none of them is empty |
| Llm.Converted | llm.py:42-45 | each history entry has role "user" or "model" and exactly one non-empty part, and there is at most one per message |
| Llm.JoinLinesCons | llm.py:41 | the instruction built by `+=` is `"\n".join` of the parts: first part, then a newline before each later one |
| Llm.JoinLinesSnoc | llm.py:41 | appending a part adds a newline only when there were parts before |
| Llm.JoinLinesEmpty | llm.py:65 | the joined instruction is empty (so `None` is passed) exactly when no system part was kept |
| Llm.ConvertHistory | llm.py:27-45 | the conversion loop returns exactly the joined system parts and the converted history |
| Llm.SystemStep | llm.py:40-41 | a non-blank system message extends the instruction and leaves the history alone |
| Llm.TurnStep | llm.py:42-45 | a non-blank non-system message adds one history entry and leaves the instruction alone |
| Llm.BlankStep | llm.py:37-39 | a message with blank content changes neither the instruction nor the history |
| Llm.ConversionSnoc | llm.py:35-45 | one more message adds at most one system part or one history entry, at the end |
| Llm.SystemPartsAppend | llm.py:35-41 | system parts of a concatenation are the concatenation of the parts: order is kept |
| Llm.ConvertedAppend | llm.py:42-45 | the converted history of a concatenation is the concatenation: order is kept |
| Llm.ConvertedMembers | llm.py:42-45 | an entry is in the history iff some non-blank non-system message produced it |
| Llm.ConversionPartition | llm.py:35-45 | every history message becomes a system part, a history entry or is dropped as blank, and no message is counted twice |
| Llm.LastInput | llm.py:100 | the text sent is never empty: it is the last content unchanged (not stripped) whenever that is non-empty, and a single space when the content is missing or empty |
| Llm.LastMessageIgnored | llm.py:31-33 | the last message never reaches the instruction or the history, whatever its role |
| Llm.WorkedExample | llm.py:26-45 | [system S, user U1, assistant A1, user U2] gives instruction "S", history [user U1, model A1] and input "U2" |
| Llm.ExampleHistory | llm.py:35-45 | the conversion of the worked example, message by message |
| Llm.FirstWithParts | llm.py:106-108 | the index found is the first candidate with parts; none is found only when no candidate has parts |
| Llm.ExtractReply | llm.py:103-111 | a non-empty top-level text wins, else the stripped join of the first candidate with parts; otherwise the no-reply LLMError |
| Llm.InstructionArg | llm.py:65 | `system_instruction or None`: `None` exactly for the empty instruction, and the instruction itself otherwise |
| Llm.ConstructModel | llm.py:62-74 | positional call first; the `model_name=` call is made, second, exactly when the positional one raised TypeError |
| Llm.Wrap | llm.py:114-115 | a wrapped error is "Gemini error: " followed by the exception text |
| Llm.Chat | llm.py:9-115 | the imperative `chat` makes the same calls and gives the same result as `ChatSpec` |
| ChatProperties.ChecksComeFirst | llm.py:14-24 | a failing check raises its own message before any provider call, in the order provider, key, messages |
| ChatProperties.ChatIsConverse | llm.py:47-53 | once the checks pass and the library is importable, `chat` is the provider block on the built request |
| ChatProperties.FailuresBeforeProvider | llm.py:14-50 | with no provider call, `chat` fails with one of its four configuration/library LLMError messages |
| ChatProperties.OpeningStarts | llm.py:77-97 | opening a session calls start_chat on the configured model, plus once on gemini-1.5-flash iff the fallback condition holds; nothing is sent |
| ChatProperties.ConverseStarts | llm.py:52-100 | the provider block starts at most two sessions, the second on the fallback model, and sends at most once |
| ChatProperties.FallbackAtMostOnce | llm.py:77-97 | over all of `chat`: at most one fallback, only to gemini-1.5-flash, only on a "not found"/"unsupported" error, and at most one send |
| ChatProperties.NoFallbackOnOtherErrors | llm.py:96-97 | a start_chat error mentioning neither phrase is raised wrapped, with no fallback and no send |
| ChatProperties.OpeningKeywords | llm.py:83-94 | the fallback model is also built positionally first and by keyword only after a TypeError |
| ChatProperties.KeywordOnlyAfterTypeError | llm.py:62-74 | in every run of `chat`, each keyword construction directly follows a positional one of the same model that raised TypeError |
| ChatProperties.OpeningCarries | llm.py:63-95 | session opening passes the instruction to every construction and the history to every start_chat |
| ChatProperties.ConverseCarries | llm.py:52-100 | every provider call carries its piece of the request: instruction, history or input |
| ChatProperties.RequestReachesProvider | llm.py:31-100 | the converted instruction, history and last input reach the provider unchanged |
| ChatProperties.ConverseErrorsWrapped | llm.py:111-115 | inside the provider block a failure is the no-reply LLMError or a "Gemini error: " message, after configure was called first |
| ChatProperties.ConverseReplyStripped | llm.py:100-109 | a reply is returned only after a send, and it is already stripped |
| ChatProperties.ConverseResult | llm.py:52-115 | in the provider block the library's answer to the last call decides the result: an exception from configure, GenerativeModel, start_chat or send_message is raised as "Gemini error: " with its text; a response gives the reply extracted from it; the no-reply LLMError is raised unwrapped exactly when that response has no text and no candidate with parts |
| ChatProperties.ChatResult | llm.py:9-115 | the same for all of `chat`, once any provider call has been made |
| ChatProperties.WhitespaceReplyIsEmpty | llm.py:103-104 | a top-level reply text of only whitespace is returned as the empty string |
| ChatProperties.NotFoundTriggers | llm.py:80 | "404 Not Found" lowers to "404 not found", so it triggers the fallback |
| ChatProperties.ScenarioOpens | llm.py:77-95 | with gemini-2.0-flash rejected, the session opens on gemini-1.5-flash after two start_chat calls |
| ChatProperties.FallbackScenario | llm.py:77-104 | the same scenario end to end: two sessions started, the input sent to gemini-1.5-flash, the stripped reply returned |
| Memory.Window | memory.py:26 | `conv[-30:]` has at most 30 messages; it is the whole list when short, and exactly 30 when long |
| Memory.WindowIsSuffix | memory.py:26 | the window is the tail of the conversation, in order and unaltered |
| Memory.WindowIdempotent | memory.py:32 | re-truncating a stored list changes nothing |
| Memory.WindowAppend | memory.py:29-32 | truncating before an append and again after keeps the same messages as truncating once |
| Memory.AppendKeepsNewest | memory.py:31-32 | after an append the new message is last, the list grows by one up to 30, and the oldest message is dropped at 30 |
| Memory.AppendSuffix | memory.py:32 | an earlier truncation never changes the last 30 of a longer list |
| Memory.AppendAllWindow | memory.py:28-33 | after any number of appends the stored list is the last 30 of all the messages appended |
| Memory.ThirtyOneAppends | memory.py:13 | 31 appends to an empty memory keep messages 2..31 in order |
| Memory.ConversationStore.Stored | memory.py:25 | an unknown contact reads as the empty list |
| Memory.ConversationStore.constructor | memory.py:9-11 | a fresh memory file holds `{}` |
| Memory.ConversationStore.GetHistory | memory.py:23-26 | returns the window of the stored list, at most 30, as its tail; the store is not modified |
| Memory.ConversationStore.AppendMessage | memory.py:28-33 | the contact's list becomes the window of the old list plus the new message; other contacts are unchanged; every stored list stays the last 30 appended since the last reset |
| Memory.ConversationStore.ResetHistory | memory.py:35-38 | the contact's list becomes empty and the other contacts are unchanged, both in the store and in the record of messages appended since each contact's last reset, so every stored list stays the last 30 appended since its reset |
| Memory.OtherContactsUntouched | memory.py:28-33 | an append for one contact leaves another contact's history as it was |
| Memory.ResetLeavesOthers | memory.py:35-38 | a reset of one contact leaves another contact's history as it was |
| Memory.ResetThenGet | memory.py:35-38 | a reset followed by a read gives the empty history |
| Persona.Target | persona.py:55 | the target contact is already stripped |
| Persona.GivenContactUsed | persona.py:55 | a non-empty contact argument is the target, stripped, whatever TARGET_CONTACT says |
| Persona.EmptyContactFallsBack | persona.py:55 | an empty contact argument falls back exactly like a missing one |
| Persona.ExplicitSapaanWins | persona.py:36-37 | a non-empty `sapaan` argument is used, stripped, whatever the environment and contact |
| Persona.BlankSapaanGivesEmpty | persona.py:36-37 | a `sapaan` of only whitespace is still used, and the greeting is then empty |
| Persona.IntimateIgnoresContact | persona.py:38-41 | when intimate greetings are allowed, by the argument or by ALLOW_INTIMATE with no argument, the greeting is SAPAAN_INTIMATE whatever the contact |
| Persona.UnsetArgumentUsesEnv | persona.py:38-39 | with no `allow_intimate` argument the greeting is the one for the argument equal to ALLOW_INTIMATE's value |
| Persona.ArgumentOverridesEnv | persona.py:38-39 | an explicit `allow_intimate` acts like ALLOW_INTIMATE set to a true or false word |
| Persona.AllowIntimateCases | persona.py:32 | unset ALLOW_INTIMATE is false; " YES\n" is true, since blanks and case are ignored; "no" is false |
| Persona.NicknameUsed | persona.py:36-41 | with no `sapaan`, no SAPAAN_DEFAULT and intimacy off, a contact whose lowercased name is a nickname key is greeted by that nickname |
| Persona.NicknameIgnoresCase | persona.py:40 | "sopia", "Sopia" and "SOPIA" are all greeted by the nickname "Sopi" |
| Persona.SapaanDefaultBeforeNickname | persona.py:36-41 | with no or an empty `sapaan`, a non-empty SAPAAN_DEFAULT is used instead of the nickname or the name, and the intimate greeting still wins over it |
| Persona.TitleCaseOtherwise | persona.py:36-41 | with no or an empty `sapaan` and intimacy off, a contact without a nickname or SAPAAN_DEFAULT is greeted by its title-cased name |
| Persona.DefaultTargetNotEmpty | persona.py:55 | without a contact argument the target is never empty: TARGET_CONTACT if it has text, else "sopia" |
| Persona.BlankTargetFallsBack | persona.py:22 | a TARGET_CONTACT of only whitespace becomes "" and the prompt is written for "sopia" |
| Persona.BlankContactGivesEmptyTarget | persona.py:55 | a contact argument of only whitespace is used, and the target is then empty |
| Persona.DefaultGreeting | persona.py:22-41 | with no environment and no arguments the prompt is for "sopia", greeted "Sopi" |

## Left out

- The google-generativeai library is not part of this model. `configure`, `GenerativeModel`, `start_chat` and `send_message` are the functions of the `Client` oracle, and an exception is only its TypeError flag and its `str(e)` text.
- The import of the library (llm.py:47-50) is the `installed` flag of the oracle.
- Environment variables are records of optional strings (`Llm.Config`, `Persona.PersonaEnv`). `os.getenv` with a default becomes `GetOr`.
- `generation_config`, with its float `temperature` and `top_p`, is not modelled: it is passed unchanged and has no effect on control flow.
- `resp.text` in the real library can itself raise. The model treats the response as plain data, and an exception raised while reading it is not modelled.
- `str.lower` is modelled on ASCII letters only. The fallback test and ALLOW_INTIMATE do not see non-ASCII case folding.
- `str.title` is a function parameter of `Persona.ResolveSapaan`, because its word-boundary rules are not modelled.
- Persona.BuildSystemPrompt: the prompt template, `textwrap.dedent` and the joined core values are not modelled. The model returns only the target and the greeting that the template embeds.
- memory.py's file I/O is the `store` field. Reading and writing `memory.json`, `DATA_DIR`, JSON encoding and concurrent writers to the same file are not modelled. A stored value that is not a list is not modelled either.
- app.py and api/index.py (the HTTP routes) are not part of this model.
- The `Client` oracle answers each call as a function of its arguments only: the same construction or `start_chat` always gets the same answer. A retry on the same model name (the fallback when GEMINI_MODEL is already gemini-1.5-flash) therefore repeats the first failure; a library whose answers change between calls is not modelled.
- Contacts are not lowercased by memory.py: the memory model keys on the contact string as given.
- `chat` as written has no model chain beyond the single fallback to gemini-1.5-flash, no retry on quota errors and no backoff. The model follows the code, so none of these exist in it.
- `chat` as written can return an empty string: a top-level text of only whitespace is truthy and strips to "" (`ChatProperties.WhitespaceReplyIsEmpty`). The model follows the code, not the promise of a non-empty reply.
