# character.chat — a verified model of the chat loop

character.chat is a terminal chat client for a locally hosted language model
server. It keeps the conversation in memory as an append-only transcript of
role-tagged messages, seeded with the configured greeting. It reads one line at a
time and treats it as one of: `exit`/`quit`, `/config [option]` (show or edit one
configuration field, saved to the configuration file), `/ver`, `/hist [user|assistant]`,
or a chat turn. A chat turn appends the user's line, sends the whole
transcript behind a system preamble built from the current configuration,
appends the reply, and warns when the reply mentions self-harm. The reply is
appended even when it is an error text.

This project models that core in Dafny:

- `gostrings.dfy` (`GoStrings`): the Go string operations the client relies on.
  These are `strings.TrimSpace` with Go's `unicode.IsSpace` set,
  `strings.Split` on one character, `strings.Contains`, and ASCII
  `strings.ToLower`. Each is specified by what it means, for example
  "Split then Join gives the string back".
- `transcript.dfy` (`Transcript`): messages, the per-role views that `/hist`
  prints, and the alternating shape of a transcript built by the loop.
- `settings.dfy` (`Settings`): the configuration record and the first-run
  defaults. It also holds the "press Enter for the default" prompt rule, the
  edit of one named field, and the choice of the option from a `/config` line.
- `inference.dfy` (`Inference`): the preamble, the request body and reply
  extraction from the decoded JSON answer. `ParsePreamble` is an inverse of the
  preamble written for the model. It shows that the request carries the
  configured system prompt and definition. They can be read back exactly when
  the system prompt does not hide the definition marker (`MarkerFree`).
- `commands.dfy` (`Commands`): how an input line is classified, in the
  program's order.
- `warnings.dfy` (`Warnings`): the keyword scan over a reply.
- `session.dfy` (`Session`): the class `ChatSession`, whose fields hold the
  transcript, the configuration in memory and the configuration file's
  content. Its methods mirror the program's functions and its loop. The
  functions `Turn` and `Replay` specify one input line and a run of them.
  The lemmas about them prove the loop's invariants: append-only, two
  messages per chat turn, alternation, no stored system message, and a file
  that always matches memory.

Standard input becomes `Input` values: the line typed at the chat prompt, plus
the line typed at the follow-up prompt of `/config <option>`. The HTTP backend
becomes a function from the endpoint URL and the request to an `Exchange`. An
`Exchange` is either a failure at one of the five steps (encode, build the
request, send, read, decode) carrying the error text, or the decoded top-level
JSON object of the answer.

Behaviour worth knowing:

- The preamble is the header line `[---] SYSTEM MESSAGE [---]`, the system
  prompt, the definition marker line `[---] ROLEPLAY DEFINITION [---]`, then
  the definition (main.go:238).
- `/config` and `/hist` are prefix tests, so `/configx` is a `/config` command
  and `/history` lists everything.
- `/ver` must match exactly, so `/version` is sent as a chat message.
- Any `/hist` option other than `user` and `assistant`, not only an empty one,
  lists the whole transcript.
- The JSON literal `null` as the answer decodes without error to an empty map.
  It is modelled as `Decoded(map[])` and gives "Unexpected response format".

## Model

| member | source | states |
|---|---|---|
| GoStrings.TrimSpace | main.go:223-228 | the result is a slice of the input with only white space cut on either side; it neither starts nor ends with white space; it is empty exactly when the input is all white space |
| GoStrings.TrimSpaceOfTrimmed | main.go:223-228 | a line with no white space at either end is left as it is |
| GoStrings.TrimSpaceIdempotent | main.go:223-228 | a trimmed line (what the loop and the prompts work with) is unchanged by trimming again |
| GoStrings.Split | main.go:96 | splitting always gives at least one piece and no piece contains the separator |
| GoStrings.JoinSplit | main.go:96 | joining the pieces of a `/config` line with spaces gives the line back |
| GoStrings.SplitJoin | main.go:96 | splitting a join of space-free pieces gives the pieces back |
| GoStrings.ContainsAt | main.go:310 | `Contains` holds exactly when the keyword occurs at some position |
| GoStrings.ToLower | main.go:310 | lower-casing keeps the length and maps each character independently |
| GoStrings.ToLowerSlice | main.go:310 | lower-casing commutes with taking a slice |
| GoStrings.ContainsLower | main.go:310 | the lower-cased reply contains a word exactly when some stretch of the reply lower-cases to it |
| Transcript.OfRole | main.go:359-374 | the per-role view is no longer than the transcript and holds only messages of that role |
| Transcript.OfRoleCounts | main.go:359-374 | the view keeps every copy of every message of that role and no other message |
| Transcript.OfRoleAppend | main.go:359-374 | the view of a concatenation is the concatenation of the views, so original order is kept |
| Transcript.OfRolePartition | main.go:359-374 | the system, user and assistant views together account for every message |
| Transcript.OfRoleIdempotent | main.go:359-374 | filtering a view again by its role changes nothing |
| Transcript.AlternatingUserCount | main.go:79-87 | an alternating transcript of length 2N+1 holds N user messages, N+1 assistant messages and no system message |
| Transcript.AlternatingExtend | main.go:79-87 | a user message followed by an assistant message keeps the alternating shape |
| Settings.PromptDefault | main.go:192-205 | a blank answer gives the default; any other answer gives the answer trimmed, non-empty, without white space at either end |
| Settings.InitialConfigDefaults | main.go:166-183 | pressing Enter at every first-run prompt gives the built-in URL, model, system prompt, definition and greeting |
| Settings.EditedConfig | main.go:104-125 | an edit happens exactly for url, model, definition and greeting; the named field becomes the prompt rule's value with the old value as default |
| Settings.EditLeavesOtherFields | main.go:104-125 | every field other than the named one, the system prompt included, keeps its value |
| Settings.BlankEditKeepsConfig | main.go:104-117 | a blank answer to an edit leaves the configuration as it was |
| Settings.ConfigOptionNamed | main.go:95-101 | `/config option …` with one space before the option, and the option ending at a space or the line's end, names that option |
| Settings.ConfigOptionWithoutSpace | main.go:95-101 | a `/config` line without a space names no option, so the configuration is only shown |
| Settings.ConfigOptionEmptyPiece | main.go:95-101 | when the first space is followed by another space or ends the line, no option is named |
| Inference.BuildRequest | main.go:238-250 | the request has an empty prompt, no streaming and the configured model; its messages are the preamble, as a system message, followed by the whole transcript in order |
| Inference.RequestCarriesCurrentConfig | main.go:237-250 | provided the system prompt does not hide the definition marker (`MarkerFree`), the system message can be parsed back into the system prompt and definition configured at the time of the call |
| Inference.PreambleIsOnlySystemMessage | main.go:240-250 | when the transcript holds no system message, the preamble is the request's only system message |
| Inference.IndexFrom | main.go:238 | the search finds the first occurrence of the definition marker at or after a position, or reports that there is none |
| Inference.ParsePreamble | main.go:238 | whatever the parser returns rebuilds the same preamble |
| Inference.ParsePreambleComplete | main.go:238 | every preamble the client builds parses |
| Inference.ParsePreambleInverse | main.go:238 | parsing a preamble gives back its system prompt and definition when the system prompt does not hide the marker |
| Inference.ParsePreambleOnlyIfMarkerFree | main.go:238 | when parsing a preamble gives back its system prompt and definition, the system prompt does not hide the marker |
| Inference.ParsePreambleRoundTrip | main.go:238 | parsing a preamble gives back its system prompt and definition exactly when the system prompt does not hide the marker |
| Inference.MarkerFreeWithoutBracket | main.go:238 | a system prompt without `[` cannot hide the marker |
| Inference.PreambleAmbiguous | main.go:238 | without that proviso, two different configurations produce the same preamble |
| Inference.ReplyText | main.go:256-292 | each failed step gives its fixed prefix followed by the error text; a `message` that is missing or not an object gives "Unexpected response format"; a string `message.content` is returned; otherwise "No content received" |
| Inference.ReplyOfWellFormedAnswer | main.go:283-291 | `{"message": {"content": c, …}, …}` yields `c` whatever other keys are present |
| Commands.Classify | main.go:58-79 | quit exactly for `exit`/`quit`; `/config` for a `/config` prefix; version exactly for `/ver`; history for a `/hist` prefix with the trimmed rest as option; a chat turn with the line itself for everything else |
| Commands.CommandsArePrefixTests | main.go:64-77 | `/configx` is a `/config` command and `/history` is a history command with option `ory` |
| Commands.VersionWordIsChatTurn | main.go:60-79 | `/version` is not the version command: it is a chat turn with that text |
| Commands.EmptyLineIsChatTurn | main.go:60-79 | an empty line is a chat turn with empty text |
| Warnings.CheckForWarnings | main.go:308-315 | the scan warns exactly when the lower-cased reply contains one of the five keywords |
| Warnings.AlarmingCaseInsensitive | main.go:308-315 | the warning fires exactly when some stretch of the reply, in any ASCII letter case, spells a keyword |
| Session.OnlyChatTurnsTouchTranscript | main.go:58-87 | only a chat turn changes the transcript, and it appends exactly the trimmed line as a user message followed by the reply text as an assistant message |
| Session.FailedExchangeIsRecorded | main.go:79-87 | when sending fails, the turn still ends with the trimmed user line followed by an assistant message "Response error: " plus the error text |
| Session.ReplayAppendOnly | main.go:230-235 | the transcript before a run is a prefix of the transcript after it |
| Session.ReplayLength | main.go:58-92 | after a run, the transcript has grown by exactly two messages per chat turn |
| Session.ReplayAlternating | main.go:79-87 | starting from the greeting, user and assistant messages keep taking turns |
| Session.TurnUserMessages | main.go:79-87 | one input line adds to the user view exactly its trimmed text when it is a chat turn, and nothing otherwise |
| Session.ReplayUserMessages | main.go:79 | the transcript's user messages are the trimmed chat lines, in the order typed |
| Session.ReplayNoSystemMessage | main.go:301-306 | no system message ever enters the transcript, so the preamble is never stored |
| Session.ConfigEffectTracksConfig | main.go:95-125 | a `/config` line leaves the file matching memory, keeps the system prompt and leaves the transcript alone |
| Session.TurnSavedTracksConfig | main.go:58-92 | every input line keeps the file matching memory and keeps the system prompt |
| Session.ReplaySavedTracksConfig | main.go:104-125 | through a whole run, the file matches memory and the system prompt never changes |
| Session.ConfigLineTurn | main.go:64-66 | a trimmed line `/config <editable option>` applies that edit and saves it |
| Session.ConfigLineOption | main.go:95-101 | the option of `/config <option>` is that option |
| Session.ModelEditReachesNextRequest | main.go:109-123 | after `/config model` with a non-blank answer, the file holds the new model and the next chat request uses it |
| Session.DefinitionEditReachesNextPreamble | main.go:112-123 | after `/config definition` with a non-blank answer, the next request's preamble holds the new definition |
| Session.HelloScenario | main.go:79-87 | when the backend answers the request for `hello` with `{"message": {"content": "hi there"}}`, the line `hello` ends the transcript with that line and that reply |
| GoStrings.Contains | main.go:310 | definition of `strings.Contains` (no ensures of its own); `ContainsAt` characterises it as "occurs at some position" |
| GoStrings.TrimPrefix | main.go:75 | with the prefix present, the input is the prefix followed by the result; otherwise the result is the input |
| Transcript.HistoryView | main.go:359-380 | definition of what `/hist <option>` lists (no ensures of its own): the user view, the assistant view, or the whole transcript; `OfRole` and its lemmas characterise the views, `ChatSession.ShowHistory` is proved equal to it |
| Settings.InitialConfig | main.go:166-183 | definition of the first-run configuration (no ensures of its own): fixed URL and system prompt, the other fields by the prompt rule; characterised by `PromptDefault` and `InitialConfigDefaults` |
| Settings.ConfigOption | main.go:96-97 | definition of the option a `/config` line names (no ensures of its own); characterised by `ConfigOptionNamed`, `ConfigOptionWithoutSpace` and `ConfigOptionEmptyPiece` |
| Inference.Preamble | main.go:238 | definition of the system message text (no ensures of its own); `ParsePreamble` and the `ParsePreamble*` lemmas characterise it |
| Inference.MessageObject | main.go:283 | definition of the `message` lookup with its object type assertion (no ensures of its own); its two outcomes are stated in the ensures of `ReplyText` |
| Warnings.Alarming | main.go:309-310 | definition of "some keyword occurs in the lower-cased reply" (no ensures of its own); `CheckForWarnings` is proved equal to it and `AlarmingCaseInsensitive` characterises it |
| Session.Seeded | main.go:346-352 | definition of the state after the greeting (no ensures of its own): the greeting as the only, assistant, message; used by `RunProgram` |
| Session.ConfigEffect | main.go:95-125 | definition of a `/config` line's effect (no ensures of its own); characterised by `ConfigEffectTracksConfig` and `ConfigLineTurn`, and `ChatSession.HandleConfigCommand` is proved equal to it |
| Session.Turn | main.go:59-87 | definition of one pass of the loop (no ensures of its own); characterised by `OnlyChatTurnsTouchTranscript`, `TurnUserMessages`, `TurnSavedTracksConfig` and `FailedExchangeIsRecorded`, and `ChatSession.Step` is proved equal to it |
| Session.Replay | main.go:58-92 | definition of the loop over a run of lines (no ensures of its own); characterised by `ReplayAppendOnly`, `ReplayLength`, `ReplayAlternating`, `ReplayUserMessages`, `ReplayNoSystemMessage` and `ReplaySavedTracksConfig`, and `ChatSession.Run` is proved equal to it |
| Session.ChatSession.constructor | main.go:53 | a session starts with an empty transcript, and memory and file both hold the loaded configuration |
| Session.ChatSession.DisplayGreeting | main.go:340-353 | the greeting is appended as one assistant message, with nothing else changed |
| Session.ChatSession.AppendUserMessage | main.go:230-235 | exactly one user message with the given text is appended at the end |
| Session.ChatSession.AppendAssistantMessage | main.go:301-306 | exactly one assistant message with the given text is appended at the end |
| Session.ChatSession.SendChatRequest | main.go:237-293 | the reply is the reply text of the backend's answer to the request built from the current configuration and transcript, posted to the configured URL |
| Session.ChatSession.EditConfigOption | main.go:104-125 | it reports an edit exactly for the editable options; then memory and file hold the edited configuration, otherwise both are unchanged; the transcript is never touched |
| Session.ChatSession.HandleConfigCommand | main.go:95-102 | the state afterwards is the `/config` effect: the named edit, or nothing |
| Session.ChatSession.CollectRole | main.go:363-373 | the collected messages are the transcript's messages of that role, in order |
| Session.ChatSession.ShowHistory | main.go:359-381 | `/hist` lists the user view, the assistant view, or the whole transcript |
| Session.ChatSession.Step | main.go:59-91 | the state afterwards is `Turn` of the state before; it stops exactly on `exit`/`quit`; it warns exactly when a chat reply is alarming |
| Session.ChatSession.Run | main.go:58-92 | it handles lines up to the first `exit`/`quit` and the state afterwards is `Replay` of the lines handled |
| Session.RunProgram | main.go:48-92 | after the greeting and the loop, the transcript alternates and has 1 + 2N messages for N chat lines; its user messages are those lines; the file matches memory |

## Left out

- The HTTP client, the POST itself and reading the body (main.go:261-276) are not modelled: their outcome is an `Exchange` value given by the `backend` parameter. Because every request carries the growing transcript, modelling the backend as a function of the request does not constrain two turns of one run to get the same answer.
- JSON encoding and decoding (main.go:185, 216, 256, 279, 334) are not modelled as byte codecs. The decoded answer is a `Json` value with objects, strings and "anything else". Whether encoding the request can fail is left to the `backend` parameter (`EncodeFailed`).
- The configuration file is not modelled beyond the `saved` field. Out of scope: path resolution, directory creation, the first-run file write, reading and parsing it at start-up, and `os.Exit` on failure (main.go:136-221, 332-338). `InitialConfig` models only the first-run prompts.
- Session.ChatSession.EditConfigOption: a failed write of the configuration file (main.go:335-337) is not modelled; the model always sets `saved` to the edited configuration.
- GoStrings.ToLower: lower-cases ASCII letters only, while Go's `strings.ToLower` is Unicode-aware (for example the Kelvin sign lower-cases to `k`), so replies whose keywords use such letters are not flagged by the model.
- Go strings are byte strings; the model uses sequences of Unicode scalar values, so invalid UTF-8 input is not modelled.
- Session.ChatSession.Run: `inputs` is a finite stretch of standard input, and end of input is not modelled. The program never stops at end of input: `readUserInput` ignores the read error and returns "" (main.go:226-227), which is a chat turn, so the client keeps sending empty turns.
- Reading standard input with a fresh buffered reader per call (main.go:197, 225) may drop input typed ahead; the model gets one line per read.
- All printing is left out: `displayResponse`, `displayGreeting`'s banner, `displayCurrentConfig`, `displayVersion`, the warning banner, `printDebugInfo` and `printFormattedRequestData`. So are `strings.Title` in `/hist` and the `-debug` flag with its timing (main.go:49, 81-83, 89-91).
- No proof that the shipped default system prompt contains no `[`. So `ParsePreambleInverse` is not instantiated for it, though `MarkerFreeWithoutBracket` would apply.
