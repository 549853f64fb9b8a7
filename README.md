# Shell session engine: a Dafny model

This project models the text-processing core of the macOS front end for the
`claude` command-line tool. The core has four parts:

- `ShellSession`, which runs an interactive shell in a pseudo-terminal. It
  strips terminal escape sequences from the shell's output, cuts the output
  into lines and groups them into (command, output) transcript entries. It
  also remembers `claude --resume <id>` session ids, drives the login/launch
  stage machine from what the shell prints, and decodes the `stream-json`
  output of a one-shot `claude` prompt into live steps and a final reply.
- `PTYProcess`, the pseudo-terminal handle: its blocking-tolerant write loop,
  its idempotent `terminate`, and the decoding of the child's wait status.
- The value types of `ShellModels.swift`.
- The bounded log of the runtime monitor panel.

Modules, one per component:

| module | component |
|---|---|
| `Common` | `Option`/`Result` and bounded-list helpers (`KeepNewest`, `KeepFirst`) |
| `Text` | Foundation's whitespace sets, trimming, ASCII lowercasing, substring search, split/join, integer rendering |
| `ShellModels` | the session stage, chat, live-step, terminal-entry and resume-session value types, `displayName` |
| `EscapeNormalizer` | `stripANSIEscapeSequences`: the nine regular-expression rewrites, in order |
| `ShellQuoting` | `shellQuoted` and a POSIX shell reader that reads the quoted word back |
| `Segmenter` | line segmentation (`consumeReadableTerminal`) and the command/output extractor (`consumeReadableLine`, `extractPromptCommand`, `finalizeCurrentEntryIfNeeded`, `appendTerminalEntry`) as functions over a transcript value |
| `ResumeHistory` | `extractResumeSessionID` and the most-recently-used list of `saveResumeSession` |
| `StageMachine` | `consumeClaudeSignals` as a priority table; the pending login actions |
| `StreamDecoder` | the `stream-json` decoder (`ClaudeStreamState`, chunk/line/flush handling, event/text/error extraction) and the final-result rule |
| `LiveSteps` | the live-step list operations |
| `Pty` | `PTYProcess`: `write`, `terminate`, `exitCode` |
| `RuntimeMonitor` | `RuntimeMonitor.log`/`clear`/`joinedText` |
| `Session` | the `ShellSession` class itself: its fields, and each operation as a method proved against a function on a `State` value |

The imperative parts keep their form:

- `ShellSession`, `ClaudeStreamState`, `PTYProcess` and `RuntimeMonitor` are
  classes whose methods update their fields in place.
- The loops of `consumeReadableTerminal`, `processStreamChunk`, `write` and
  `finalizeRunningStepsAsSuccess` are `for` or `while` loops with invariants.
- Each method's `ensures` ties the new state to a function of the old state.
- The properties are proved as lemmas about those functions.

Regular expressions are not run by an engine. Each of the nine normaliser
patterns and the resume pattern is a hand-written scanner, and one generic
leftmost, non-overlapping `ReplaceAll` applies them. Each pattern's repeated
class is disjoint from what follows it, so greedy matching never backtracks
and the maximal span is the match. JSON text is not parsed: each stream line
goes to a `decode` parameter that yields an abstract `Json` value.

Some behaviours of the code that are easy to miss:

- Stage signals are matched against the whole cleaned chunk at once, not
  line by line (ShellSession.swift:374, 694-727).
- The escape normaliser is not idempotent (ShellSession.swift:1329-1382):
  `[1` NUL `C` normalises to `[1C`, which normalises to one space.
  `EscapeNormalizer.NotIdempotent` proves this.
- An error object in the stream yields the fixed step `stepFailed("Request")`
  (ShellSession.swift:1159). Its message travels separately, through
  `extractClaudeStreamError`.
- The fallback failure message is `claude exited with N`
  (ShellSession.swift:1046).
- The resume pattern is not end-anchored (ShellSession.swift:1409): a
  37-character id run yields its first 36 characters.
- `terminate` closes the descriptor only when it is open
  (ShellSession.swift:1618-1621).

## Model

| member | source | states |
|---|---|---|
| EscapeNormalizer.NormalizeIsClean | Sources/ShellSession.swift:1329-1382 | the normalised text holds no ESC, no CR, no control character other than LF and TAB, and never two adjacent spaces |
| EscapeNormalizer.ReplaceAllChars | Sources/ShellSession.swift:1332-1379 | a rewrite only ever outputs characters of its input or of its replacement text |
| EscapeNormalizer.CsiRemovesSequence | Sources/ShellSession.swift:1332-1337 | a complete CSI sequence (ESC `[`, parameter bytes, intermediate bytes, final byte) after ESC-free text is removed whole and nothing before it changes |
| EscapeNormalizer.EscFreeUnchanged | Sources/ShellSession.swift:1332-1355 | the four ESC-led rewrites leave ESC-free text unchanged |
| EscapeNormalizer.EscRunRemovesEsc | Sources/ShellSession.swift:1350-1355 | after the generic ESC rewrite no ESC is left |
| EscapeNormalizer.RemnantSteps | Sources/ShellSession.swift:1356-1361 | the orphan `[1C` passes every rewrite but the cursor-forward one (which makes it one space) and the bracket-remnant one (which removes it) |
| EscapeNormalizer.ControlRemovesControls | Sources/ShellSession.swift:1368-1373 | after the control-character rewrite the only control characters left are LF, CR and TAB |
| EscapeNormalizer.CarriageReturnRemoved | Sources/ShellSession.swift:1374 | after the CR rewrite no CR is left |
| EscapeNormalizer.SpaceRunCollapses | Sources/ShellSession.swift:1375-1379 | after the space-run rewrite no two spaces are adjacent |
| EscapeNormalizer.NotIdempotent | Sources/ShellSession.swift:1356-1373 | normalising `[1` NUL `C` gives `[1C`, and normalising that gives one space: the normaliser is not idempotent |
| ShellQuoting.EscapeQuotes | Sources/ShellSession.swift:1385 | text without a single quote is left as it is, and escaping never shortens text |
| ShellQuoting.ShellQuoted | Sources/ShellSession.swift:1384-1386 | the quoted path begins and ends with a single quote |
| ShellQuoting.ShellQuotedRoundTrip | Sources/ShellSession.swift:1384-1386 | a POSIX shell reads the quoted word back as exactly the path, whatever characters it holds |
| Text.ExtendedWhitespaceIsBaseSet | Sources/ShellSession.swift:1423-1427 | adding U+00A0, U+2007 and U+202F to `whitespacesAndNewlines` gives the same set |
| Text.TrimIsSlice | Sources/ShellSession.swift:765 | trimming yields the slice between the first and the last non-set characters, and is empty exactly when every character is in the set |
| Segmenter.PromptCommandMeaning | Sources/ShellSession.swift:1388-1406 | a line yields a command exactly when its trimmed text starts with the marker, `$ ` or `# `, or starts with `% ` and contains ` % `; the command it yields is trimmed; after the marker one character is dropped, so the empty marker of line 1391 makes every line yield one |
| Segmenter.PromptRoundTrip | Sources/ShellSession.swift:1401-1403 | `$ ` or `# ` followed by a trimmed command yields that command |
| Segmenter.MarkerRoundTrip | Sources/ShellSession.swift:1391-1394 | a one-glyph marker followed by a trimmed command yields that command |
| Segmenter.PercentPromptRoundTrip | Sources/ShellSession.swift:1396-1399 | a `% ` prompt yields what follows its last ` % `, under any marker that does not start with `%` |
| Segmenter.EntryForMeaning | Sources/ShellSession.swift:780-792 | the entry records the command and comes from the terminal. Its output is never empty and is `(no output)` exactly when the trimmed joined output is blank (or is that text itself). It is an error exactly when the lowercased output contains `error`, `not found` or `failed` |
| Segmenter.EntryOutputIsJoinedLines | Sources/ShellSession.swift:781-788 | for collected (trimmed, non-blank) lines the output is the lines joined by LF, verbatim |
| Segmenter.AppendTerminalEntryMeaning | Sources/ShellSession.swift:861-866 | the new entry is last, at most 150 entries are kept, the kept older ones are the newest in their order, and nothing is dropped below the cap |
| Segmenter.FinalizeEntryMeaning | Sources/ShellSession.swift:780-792 | closing always clears the open command and output; a non-empty command records its entry as the newest (at most 150 kept, older ones in order), otherwise the entries stay as they were |
| Segmenter.EmptyMarkerCollectsNothing | Sources/ShellSession.swift:1391 | with the empty marker written at line 1391, no line is ever collected as output |
| Segmenter.EmptyMarkerDropsFirst | Sources/ShellSession.swift:1391-1394 | with the empty marker a clean line is a prompt whose command is the line without its first character |
| Segmenter.EmptyMarkerOutputLine | Sources/ShellSession.swift:764-778 | with the empty marker an output line closes the open entry and opens the line without its first character as a command |
| Segmenter.EntryForNoLines | Sources/ShellSession.swift:781-788 | a command closed without output lines is recorded as `(no output)` |
| Segmenter.PromptOpens | Sources/ShellSession.swift:770-773 | a prompt line with a command records the open entry, if any, and opens the command |
| Segmenter.DollarStep | Sources/ShellSession.swift:1401-1403 | a `$ ` prompt, under the empty marker or a one-glyph marker other than `$`, records the open entry and opens its command |
| Segmenter.GlyphMarkerCollectsOutput | Sources/ShellSession.swift:764-792 | with a one-glyph marker, `$ c`, an output line and `$ p` record `c` with that line as its output and leave `p` open |
| Segmenter.LineStepMeaning | Sources/ShellSession.swift:764-778 | a line blank after trimming changes neither the transcript nor the resume list; a prompt line closes the open entry and opens one only for a non-empty command; any other line is collected trimmed |
| Segmenter.LineStepOk | Sources/ShellSession.swift:764-778 | each line keeps every collected output line trimmed and non-blank, any open command non-empty, and the entries at most 150 |
| Segmenter.PromptLineStep | Sources/ShellSession.swift:769-774 | a prompt line with a command closes the open entry and opens one for that command |
| Segmenter.NextPromptStep | Sources/ShellSession.swift:769-770 | any prompt line closes the open entry |
| Segmenter.OutputLineStep | Sources/ShellSession.swift:777 | a trimmed non-prompt line is appended to the output lines and nothing else changes |
| Segmenter.FeedOutputLines | Sources/ShellSession.swift:753-777 | plain output lines are collected in order and change nothing else |
| Segmenter.PromptThenOutput | Sources/ShellSession.swift:764-778 | after a prompt line and plain output lines the open entry holds the prompt's command and exactly those lines |
| Segmenter.PromptOutputPromptMakesEntry | Sources/ShellSession.swift:764-792 | a prompt, its output lines and the next prompt produce, as the newest entry, the entry for that command and those lines |
| Segmenter.ReplaceCRLF | Sources/ShellSession.swift:747 | CR-free text is left as it is |
| Segmenter.ReplaceCRLFCons | Sources/ShellSession.swift:747 | a character other than CR is kept and the rest is replaced |
| Segmenter.ReplaceCRLFPair | Sources/ShellSession.swift:747 | a CR LF pair becomes one LF |
| Segmenter.ReplaceCRLFLoneCR | Sources/ShellSession.swift:747 | a CR not followed by LF is kept |
| Segmenter.CarryOver | Sources/ShellSession.swift:757-761 | the new line buffer never holds an LF |
| Segmenter.CompletedAndCarried | Sources/ShellSession.swift:748-761 | the handler receives all segments after a final LF, all but the last otherwise, and the buffer keeps the last segment (empty after a final LF) |
| Segmenter.CarryOverIsTail | Sources/ShellSession.swift:745-762 | old buffer plus chunk equals the completed lines, each with its LF, followed by the new buffer; no completed line holds an LF |
| Segmenter.CompletedLinesFeed | Sources/ShellSession.swift:751-755 | the lines handed to the line handler leave the transcript and the resume list exactly as the LF-terminated lines alone do: the empty segment after a final LF changes nothing |
| Segmenter.SegmentsCompose | Sources/ShellSession.swift:745-762 | the lines of two chunks fed in turn are the lines of their concatenation, and the final buffer is the same |
| Segmenter.ChunkIndependence | Sources/ShellSession.swift:745-778 | for CR-free text, feeding `a` then `b` leaves the transcript, the resume list and the buffer exactly as feeding `a + b` at once |
| ResumeHistory.MatchResumeCommand | Sources/ShellSession.swift:1409 | a match at the head of the text captures 36 characters of `[0-9a-fA-F-]` |
| ResumeHistory.MatchResumeCommandSound | Sources/ShellSession.swift:1409 | a match means the text starts with `claude`, one or more `\s`, `--resume`, one or more `\s`, and the captured 36 id characters |
| ResumeHistory.MatchResumeCommandComplete | Sources/ShellSession.swift:1409 | any text of that shape matches, capturing the 36 characters after the second run of spaces |
| ResumeHistory.FirstMatchFrom | Sources/ShellSession.swift:1412 | the first position from `from` where the pattern matches, and none before it; none at all when the result is nil |
| ResumeHistory.ExtractResumeSessionID | Sources/ShellSession.swift:1408-1417 | an extracted id is 36 characters of `[0-9a-fA-F-]` |
| ResumeHistory.ExtractIsLeftmostMatch | Sources/ShellSession.swift:1408-1417 | the result is nil exactly when no position matches, and otherwise is the group of the leftmost match |
| ResumeHistory.ExtractFromResumeCommand | Sources/ShellSession.swift:1408-1417 | `claude --resume <uuid>` yields the uuid |
| ResumeHistory.ExtractTakesFirst36 | Sources/ShellSession.swift:1409 | the pattern is not end-anchored: a 37th id character after the uuid is ignored |
| ResumeHistory.ShortIdNotExtracted | Sources/ShellSession.swift:1409 | fewer than 36 id characters after the command is no match |
| ResumeHistory.FirstIndexOfId | Sources/ShellSession.swift:168 | the first index holding the id, or nil when none does |
| ResumeHistory.SaveResumeSession | Sources/ShellSession.swift:164-181 | an id that does not trim to a UUID leaves the list unchanged; otherwise the trimmed id heads a list of 1 to 20 sessions |
| ResumeHistory.SaveResumeSessionFromCommand | Sources/ShellSession.swift:183-186 | a command without a resume id leaves the list unchanged |
| ResumeHistory.SaveResumeSessionShape | Sources/ShellSession.swift:168-179 | a recognised id is saved as the new entry, then the other sessions in their previous order, cut to 20 |
| ResumeHistory.SaveResumeSessionMeaning | Sources/ShellSession.swift:164-181 | given distinct ids, the other sessions follow the saved one in their previous order (cut to 19), the ids stay distinct, and the saved id occurs exactly once |
| ResumeHistory.WithoutIdAt | Sources/ShellSession.swift:168-170 | with distinct ids, removing the first occurrence removes every occurrence |
| ResumeHistory.SaveResumeSessionHead | Sources/ShellSession.swift:168-175 | the head is the trimmed id labelled from the new label and the entry it replaces |
| ResumeHistory.FinalLabelRule | Sources/ShellSession.swift:167-174 | a non-blank new label wins, trimmed; a nil or blank one keeps the replaced entry's label, or none |
| ResumeHistory.SaveResumeSessionLabel | Sources/ShellSession.swift:164-175 | a non-blank new label is stored trimmed; a nil or blank one keeps the label of the first earlier entry with that id, and gives none when there was no such entry |
| ShellModels.StagesAreSeven | Sources/ShellModels.swift:30-38 | the stage enum has exactly seven distinct cases |
| ShellModels.DisplayNameMeaning | Sources/ShellModels.swift:69-72 | the display name is the id for a nil or all-whitespace label, and otherwise the label between its first and last non-whitespace characters |
| StageMachine.Classify | Sources/ShellSession.swift:694-727 | the rule that fires is the first test, in source order, that the lowered chunk passes (each case stated as an iff) |
| StageMachine.NextStage | Sources/ShellSession.swift:694-727 | the trust markers always give `trustPrompt`. Otherwise a running session stays running, login-required markers give `loginRequired`, logged-in markers give `readyToLaunch`, launch markers give `running`, and no marker leaves the stage |
| StageMachine.SignalStatus | Sources/ShellSession.swift:697-726 | only the trust and launch rules set the status line: the trust message, or `claude code ready` |
| StageMachine.AnnouncesLogin | Sources/ShellSession.swift:710-718 | the login message is added exactly when the logged-in rule fires outside a running session |
| StageMachine.NextStageRange | Sources/ShellSession.swift:694-727 | a chunk moves the stage only to trust prompt, login required, ready to launch or running, or leaves it |
| StageMachine.NextStageIdempotent | Sources/ShellSession.swift:694-727 | the same chunk twice moves the stage no further than once |
| StageMachine.SafetyCheckAlternativeUnreachable | Sources/ShellSession.swift:721 | the fourth test's `quick safety check` alternative never decides an outcome |
| StageMachine.ActionCommand | Sources/ShellSession.swift:486-523 | each login flow types a command; only the empty action types none |
| StageMachine.ActionStage | Sources/ShellSession.swift:486-523 | entering Claude moves to `running`; both logins move to `authenticating` |
| LiveSteps.LastIndexWhere | Sources/ShellSession.swift:881 | `lastIndex(where:)`: the last matching index, or nil when nothing matches |
| LiveSteps.StartStep | Sources/ShellSession.swift:879-886 | an empty title changes nothing. Otherwise a running step with the title exists afterwards, and one is appended exactly when none was running |
| LiveSteps.CompleteStep | Sources/ShellSession.swift:888-894 | the latest step with the title keeps its title and takes the outcome, and nothing else changes; a title never seen is appended already finished |
| LiveSteps.MarkLatestRunningFailed | Sources/ShellSession.swift:896-900 | the last running step, if any, fails and nothing else changes |
| LiveSteps.FinalizeRunning | Sources/ShellSession.swift:902-906 | each running step becomes successful, finished steps are unchanged, and the length is kept |
| LiveSteps.StartKeepsOneRunning | Sources/ShellSession.swift:879-886 | starting a step never gives a title two running steps |
| LiveSteps.CompleteKeepsOneRunning | Sources/ShellSession.swift:888-900 | completing a step or failing the latest running one keeps at most one running step per title |
| LiveSteps.FinalizeThenMarkFailed | Sources/ShellSession.swift:896-906 | after finalising, failing the latest running step changes nothing |
| StreamDecoder.ParseEvent | Sources/ShellSession.swift:1146-1182 | the event table in priority order: `error` gives `stepFailed("Request")`; then `tool_use`, `tool_result` (chosen by `is_error`), `message_start` (`stepStarted("Thinking")`), `message_stop`/`result` (`stepSucceeded("Thinking")`); any other object and a non-object give none |
| StreamDecoder.ContentText | Sources/ShellSession.swift:1203-1207 | the content cast succeeds exactly when every block is an object |
| StreamDecoder.ContentTextSingle | Sources/ShellSession.swift:1203-1207 | one object block gives its `text` field, or the empty text without one |
| StreamDecoder.ContentTextAppend | Sources/ShellSession.swift:1203-1207 | the text of two runs of blocks is the first's followed by the second's, and nothing when either holds a non-object |
| StreamDecoder.ExtractText | Sources/ShellSession.swift:1184-1214 | `text` first; else `delta.text`; else the joined `message.content` text when the content casts; else `result`; none for a non-object |
| StreamDecoder.ContentTextWithoutText | Sources/ShellSession.swift:1204-1206 | blocks without a `text` field contribute nothing: the joined text is empty |
| StreamDecoder.ContentShadowsResult | Sources/ShellSession.swift:1203-1211 | a `message.content` that casts is the answer even when its joined text is empty: a `result` beside it is never reached |
| StreamDecoder.ExtractError | Sources/ShellSession.swift:1216-1228 | only an `error` object has a message: its `message`, else its `error` |
| StreamDecoder.NonEmpty | Sources/ShellSession.swift:1132-1139 | a fragment is kept exactly when it is present and non-empty |
| StreamDecoder.LineOutcome | Sources/ShellSession.swift:1119-1144 | a blank or non-JSON line reports nothing; reported text and error messages are never empty |
| StreamDecoder.ErrorLineOutcome | Sources/ShellSession.swift:1125-1160 | an error line reports `stepFailed("Request")` and records its message |
| StreamDecoder.FirstBreak | Sources/ShellSession.swift:1092 | `firstIndex(of: "\n")` on characters: the first LF not preceded by CR (CR LF is one character), or none |
| StreamDecoder.SplitStreamParts | Sources/ShellSession.swift:1089-1096 | old buffer plus chunk equals the drained lines, each with its LF, followed by the new buffer, and the buffer holds no line break |
| StreamDecoder.SplitStreamCompose | Sources/ShellSession.swift:1083-1096 | two chunks drained in turn give the same lines and rest as their concatenation at once, even when CR ends the first and LF starts the second |
| StreamDecoder.FeedStreamAppend | Sources/ShellSession.swift:1099-1101 | handling `xs` then `ys` is handling `xs + ys` |
| StreamDecoder.FeedStreamNonEmpty | Sources/ShellSession.swift:1132-1143 | the callbacks never see an empty fragment and the recorded error is never empty |
| StreamDecoder.CollectedIsConcat | Sources/ShellSession.swift:1132-1137 | the collected text grows by exactly the fragments reported, in order |
| StreamDecoder.StreamState.constructor | Sources/ShellSession.swift:18-23 | a fresh state has an empty buffer and collected text and no error |
| StreamDecoder.StreamState.ProcessStreamLine | Sources/ShellSession.swift:1119-1144 | reports the line's event and text, appends the text to the collected text, records a non-empty error, leaves the buffer |
| StreamDecoder.StreamState.DrainLines | Sources/ShellSession.swift:1092-1096 | the drain loop leaves exactly the split of the old buffer |
| StreamDecoder.StreamState.HandleLines | Sources/ShellSession.swift:1099-1101 | the log after handling the lines is the fold of the line outcomes over them |
| StreamDecoder.StreamState.ProcessStreamChunk | Sources/ShellSession.swift:1083-1102 | the lines and the new buffer are the split of old buffer plus chunk (which they rebuild); the events, texts, collected text and last error are the fold over those lines |
| StreamDecoder.StreamState.FlushRemainingStreamLine | Sources/ShellSession.swift:1104-1117 | the buffer is emptied and its content, when not blank, is handled as a last line |
| StreamDecoder.FinalResult | Sources/ShellSession.swift:1040-1048 | a zero status returns the collected text; any other is a failure carrying the last recorded error if there is one |
| StreamDecoder.ExitMessageNamesStatus | Sources/ShellSession.swift:1046 | without a recorded error the message is `claude exited with ` followed by the status, which reads back |
| StreamDecoder.FailureMessageNonEmpty | Sources/ShellSession.swift:1040-1048 | a failed run always reports a non-empty message |
| Pty.TerminateActionsMeaning | Sources/ShellSession.swift:1602-1622 | `terminate` cancels reading, sends SIGTERM, schedules the delayed kill (only when forced) and closes the descriptor, each exactly when there is something to act on |
| Pty.Terminated | Sources/ShellSession.swift:1602-1622 | afterwards nothing is read; a well-formed handle ends with descriptor -1 and pid 0; the terminate actions are appended to those recorded before |
| Pty.TerminateIdempotent | Sources/ShellSession.swift:1602-1622 | a second `terminate` changes nothing and records no further action |
| Pty.PTYProcess.constructor | Sources/ShellSession.swift:1479-1480 | a fresh handle has descriptor -1 and pid 0 |
| Pty.PTYProcess.Attach | Sources/ShellSession.swift:1563-1571 | after spawning, the handle keeps the pid and the descriptor and reads |
| Pty.PTYProcess.Terminate | Sources/ShellSession.swift:1602-1622 | the new handle is `Terminated` of the old one |
| Pty.PTYProcess.Write | Sources/ShellSession.swift:1575-1600 | without a descriptor nothing happens; otherwise the loop's outcome is `Drive` of the data |
| Pty.DriveSendsPrefix | Sources/ShellSession.swift:1580-1598 | the kernel receives a prefix of the data, each byte once and in order, and all of it when nothing is thrown |
| Pty.ProgressResetsRetries | Sources/ShellSession.swift:1584-1589 | a call that accepts bytes resets the retry count |
| Pty.WouldBlockRetries | Sources/ShellSession.swift:1591-1595 | a would-block within the budget costs one retry and nothing else |
| Pty.StallThrows | Sources/ShellSession.swift:1591-1596 | any other failure, or a would-block with the budget spent, throws its `errno` at once |
| Pty.FortyWouldBlocksAreRetried | Sources/ShellSession.swift:1591-1595 | up to forty would-blocks in a row, then full acceptance, writes everything |
| Pty.FortyFirstWouldBlockThrows | Sources/ShellSession.swift:1591-1596 | the forty-first would-block in a row throws `EAGAIN` |
| Pty.ExitCode | Sources/ShellSession.swift:1669-1675 | -1 exactly when the low seven bits are not all zero (a signal), otherwise a value in 0..255 |
| Pty.ExitCodeOfExit | Sources/ShellSession.swift:1669-1675 | a child that exited with `code` is reported as `code` |
| Pty.ExitCodeOfSignal | Sources/ShellSession.swift:1669-1675 | a child killed by a signal, with or without a core dump, is reported as -1 |
| RuntimeMonitor.Logged | Sources/RuntimeMonitorPanel.swift:14-19 | the entry goes last; at most 500 are kept; only the oldest are dropped, the rest in order; nothing is dropped below the cap |
| RuntimeMonitor.LoggedShiftsWhenFull | Sources/RuntimeMonitorPanel.swift:16-18 | on a full log, each new entry pushes out exactly the oldest one |
| RuntimeMonitor.FormatStamp | Sources/RuntimeMonitorPanel.swift:26-27 | an `HH:mm:ss.SSS` stamp is twelve characters without a line break |
| RuntimeMonitor.StampRoundTrip | Sources/RuntimeMonitorPanel.swift:26-30 | a stamp reads back as the time of day it was made from |
| RuntimeMonitor.EntryLineRoundTrip | Sources/RuntimeMonitorPanel.swift:29 | a line reads back as the entry's time of day and message |
| RuntimeMonitor.EntryLines | Sources/RuntimeMonitorPanel.swift:28-29 | one line per entry, in order |
| RuntimeMonitor.JoinedTextLines | Sources/RuntimeMonitorPanel.swift:25-31 | the copied text splits at newlines into one line per entry in order, with none after the last |
| RuntimeMonitor.Monitor.constructor | Sources/RuntimeMonitorPanel.swift:12 | a new monitor has no entries |
| RuntimeMonitor.Monitor.Log | Sources/RuntimeMonitorPanel.swift:14-19 | the entries become `Logged` of the old entries and the new one |
| RuntimeMonitor.Monitor.Clear | Sources/RuntimeMonitorPanel.swift:21-23 | no entries are left |
| Session.WithSent | Sources/ShellSession.swift:419-426 | text is written only when there is a process, and nothing else changes |
| Session.LastPathComponent | Sources/ShellSession.swift:648 | the text after the last `/`: a suffix of the path holding no `/`, preceded by a `/` unless it is the whole path |
| Session.StepKeepsOk | Sources/ShellSession.swift:351-906 | every event keeps the session well formed. The transcript, the resume list and the live steps keep their invariants. The line buffer holds no line break. The live process belongs to the current attempt. The session is never connected and connecting at once. A connected session has no parked action |
| Session.DataKeepsOk | Sources/ShellSession.swift:368-375 | a data chunk keeps the session well formed |
| Session.ConnectKeepsOk | Sources/ShellSession.swift:351-366 | `connect` keeps the session well formed |
| Session.TornDownKeepsOk | Sources/ShellSession.swift:459-473 | `disconnect` keeps the session well formed |
| Session.TimeoutKeepsOk | Sources/ShellSession.swift:389-395 | the timeout handler keeps the session well formed |
| Session.StartKeepsOk | Sources/ShellSession.swift:398-407 | the start completion keeps the session well formed |
| Session.FailedKeepsOk | Sources/ShellSession.swift:408-415 | the start failure keeps the session well formed |
| Session.ExitedKeepsOk | Sources/ShellSession.swift:377-383 | the exit callback keeps the session well formed |
| Session.FlowKeepsOk | Sources/ShellSession.swift:486-523 | the login buttons keep the session well formed |
| Session.ResumeSavedKeepsOk | Sources/ShellSession.swift:164-181 | saving a resume id keeps the list distinct and at most 20 long |
| Session.SaveKeepsOk | Sources/ShellSession.swift:164-181 | saving keeps ids distinct and the list at most 20 long |
| Session.FeedLinesOk | Sources/ShellSession.swift:753-755 | the line loop keeps the transcript well formed |
| Session.FeedResumesOk | Sources/ShellSession.swift:753-767 | the line loop keeps the resume list distinct and at most 20 long |
| Session.LiveKeepsOk | Sources/ShellSession.swift:868-894 | a live event keeps at most one running step per title |
| Session.LiveFailedKeepsOk | Sources/ShellSession.swift:896-900 | failing the latest running step keeps the invariant |
| Session.LiveFinishedKeepsOk | Sources/ShellSession.swift:902-906 | finalising the steps keeps the invariant |
| Session.StaleCompletionIgnored | Sources/ShellSession.swift:389-415 | a timeout, start or failure whose attempt id is not the current one changes nothing |
| Session.DisconnectInvalidatesAttempts | Sources/ShellSession.swift:459-473 | `disconnect` leaves the stage disconnected, no parked action, no process, an empty buffer and no open entry, and makes every earlier attempt id stale |
| Session.TornDownIdempotent | Sources/ShellSession.swift:459-473 | a second `disconnect` only draws another attempt id |
| Session.AttemptNeverDecreases | Sources/ShellSession.swift:351-473 | no event moves the attempt counter back, so no attempt id is reused |
| Session.ConnectOpensFreshAttempt | Sources/ShellSession.swift:351-366 | `connect` from a disconnected session opens a new attempt that owns the new process, with an empty transcript and buffer; the previous attempt's completions are ignored |
| Session.StartReplaysPendingAction | Sources/ShellSession.swift:398-407 | the current attempt's start connects the session, types the parked action's command, enters its stage and leaves nothing parked |
| Session.PendingActionLostWhenDisconnected | Sources/ShellSession.swift:486-491 | as written, a login button pressed while disconnected loses its action: the start completion replays nothing and the session waits at the login choice |
| Session.IntendedFlowReplaysAction | Sources/ShellSession.swift:486-491 | with the action parked after the reset, the start completion runs it |
| Session.IntendedFlowAgreesWhenConnected | Sources/ShellSession.swift:486-523 | when connected or connecting, the intended flow and the written flow agree |
| Session.TerminalChunkIndependence | Sources/ShellSession.swift:745-762 | the session state after two chunks equals the state after their concatenation |
| Session.TerminalBufferIsTail | Sources/ShellSession.swift:745-762 | after a chunk the line buffer holds no line break, and buffer plus completed lines rebuild all text since the last reset |
| Session.SignalsMeaning | Sources/ShellSession.swift:694-727 | the stage becomes `NextStage` of the lowercased chunk; the status line becomes `SignalStatus` when that names one and is kept otherwise; the login-success message is appended exactly when the login is announced; nothing else changes |
| Session.FinalizeAll | Sources/ShellSession.swift:902-906 | the loop marks every running step successful, in place: the result is `FinalizeRunning` |
| Session.ShellSession.constructor | Sources/ShellSession.swift:30-72 | a new session is disconnected, with no workspace, no process, nothing parked and every list empty |
| Session.ShellSession.Send | Sources/ShellSession.swift:419-426 | the new state is `WithSent` of the old |
| Session.ShellSession.AppendTerminalEntry | Sources/ShellSession.swift:861-866 | the entries become the old ones plus the new one, cut to the newest 150 |
| Session.ShellSession.FinalizeCurrentEntryIfNeeded | Sources/ShellSession.swift:780-792 | the transcript becomes `FinalizeEntry` of the old one |
| Session.ShellSession.SaveResumeSession | Sources/ShellSession.swift:164-181 | the resume list becomes `SaveResumeSession` of the old one |
| Session.ShellSession.CaptureResumeSessionIfPresent | Sources/ShellSession.swift:689-692 | the resume list becomes the save of the id found in the line, if any |
| Session.ShellSession.ConsumeReadableLine | Sources/ShellSession.swift:764-778 | the new state is `LineConsumed` of the old |
| Session.ShellSession.ConsumeReadableTerminal | Sources/ShellSession.swift:745-762 | the new state is `TerminalConsumed` of the old |
| Session.ShellSession.ConsumeCompletedLines | Sources/ShellSession.swift:753-755 | the transcript and resume list become the folds of the line handler over the lines |
| Session.ShellSession.ConsumeClaudeSignals | Sources/ShellSession.swift:694-727 | the new state is `SignalsConsumed` of the old |
| Session.ShellSession.OnData | Sources/ShellSession.swift:368-375 | the new state is `DataReceived` of the old |
| Session.ShellSession.Disconnect | Sources/ShellSession.swift:459-473 | the new state is `TornDown` of the old |
| Session.ShellSession.ReleaseProcess | Sources/ShellSession.swift:460-467 | a new attempt id, no process, not connected, nothing parked |
| Session.ShellSession.ResetLineParsing | Sources/ShellSession.swift:470-472 | an empty line buffer and no open entry |
| Session.ShellSession.EnsureWorkspaceSelected | Sources/ShellSession.swift:624-650 | a stored workspace is used; a cancelled panel disconnects with a status; a chosen folder is stored and named in the status |
| Session.ShellSession.Connect | Sources/ShellSession.swift:351-366 | the new state is `ConnectBegun` of the old |
| Session.ShellSession.BeginAttempt | Sources/ShellSession.swift:357-362 | a new attempt id owns the process, connecting, with the shell starting |
| Session.ShellSession.ConnectTimedOut | Sources/ShellSession.swift:389-395 | the new state is `TimeoutFired` of the old |
| Session.ShellSession.ChangeShellDirectoryToWorkspace | Sources/ShellSession.swift:652-656 | the new state is `DirectoryChanged` of the old |
| Session.ShellSession.ConnectStarted | Sources/ShellSession.swift:398-407 | the new state is `StartCompleted` of the old |
| Session.ShellSession.MarkConnected | Sources/ShellSession.swift:402-405 | connected, not connecting, at the login choice |
| Session.ShellSession.ConnectFailed | Sources/ShellSession.swift:408-415 | the new state is `StartFailed` of the old |
| Session.ShellSession.OnExit | Sources/ShellSession.swift:377-383 | not connected, with the exit code in the status |
| Session.ShellSession.PrepareClaudeFlow | Sources/ShellSession.swift:475-484 | the new state is `FlowPrepared` of the old |
| Session.ShellSession.RequestFlow | Sources/ShellSession.swift:486-523 | the new state is `FlowRequested` of the old |
| Session.ShellSession.RunAction | Sources/ShellSession.swift:492-498 | with a connection the action runs at once: nothing stays parked, the stage and status become the action's, and its command is sent |
| Session.ShellSession.StartBrowserLogin | Sources/ShellSession.swift:486-499 | the browser-login flow |
| Session.ShellSession.StartAPILogin | Sources/ShellSession.swift:501-511 | the API-login flow |
| Session.ShellSession.EnterClaudeCode | Sources/ShellSession.swift:513-523 | the launch flow |
| Session.ShellSession.RunPendingActionIfNeeded | Sources/ShellSession.swift:729-743 | nothing happens without a parked action; otherwise it is cleared, then its flow runs |
| Session.ShellSession.StartLiveStep | Sources/ShellSession.swift:879-886 | the steps become `StartStep` of the old ones |
| Session.ShellSession.CompleteLiveStep | Sources/ShellSession.swift:888-894 | the steps become `CompleteStep` of the old ones |
| Session.ShellSession.MarkLatestRunningStepFailedIfNeeded | Sources/ShellSession.swift:896-900 | the steps become `MarkLatestRunningFailed` of the old ones |
| Session.ShellSession.FinalizeRunningStepsAsSuccess | Sources/ShellSession.swift:902-906 | the steps become `FinalizeRunning` of the old ones |
| Session.ShellSession.ConsumeLiveClaudeEvent | Sources/ShellSession.swift:868-877 | a started event starts the step; a succeeded or failed event completes it |

`TerminalEntry` and `ChatMessage` are datatypes: their Swift fields are all
`let`, so a value never changes after it is built (Sources/ShellModels.swift:58-62, 75-81).
`ResumeSession` and `LiveStep` are datatypes too, although `label` and `status`
are `var` (ShellModels.swift:55, 66): Swift structs are values, and the list
that holds them is edited by replacing an element with a copy whose label or
status differs. The save rule builds a new element with its final label; a
live step's status is updated by replacing the element in the list.

## Left out

- I/O and concurrency are left out:
  - the `DispatchSource` read loop, the wait loop and the `DispatchQueue`/`MainActor` hand-offs;
  - the task-group race of `startWithTimeout`;
  - the `NSLock` of the stream state;
  - the 40 ms output flush timer of `enqueueOutput` and the `output`/`pendingOutput` text.

  Each callback is one sequential event (`Session.Event`), and the attempt-id guard is a plain equality check.
- `PTYProcess.start`, `startReadLoop` and `startWaitLoop` are left out: they call `openpty`, `posix_spawn`, `fcntl`, `read` and `waitpid`. `Attach` stands for the parent's bookkeeping after a successful spawn.
- `write`'s system calls are a `kernel` parameter, one result per call; `usleep` is not modelled. Darwin's `EWOULDBLOCK` equals `EAGAIN` (35).
- UTF-8 encoding of written text is left out: `Write` takes the bytes. Decoding of read chunks is left out too: chunks arrive as text.
- `terminate`'s `kill`, `close` and the delayed kill check are recorded as actions, not performed. The 150 ms grace period is not modelled.
- Each `UUID()` connection attempt id is a natural-number counter that only grows. The `UUID()` identities of entries, steps and messages are left out, and so are `savedAt` and `Date()`.
- `RuntimeMonitor.Monitor.Log` takes the clock reading (milliseconds) as a parameter. The time zone is left out: a stamp is the time of day since midnight.
- Persistence is left out: `UserDefaults` loading and saving of the workspace path, resume sessions and themes.
- `ensureWorkspaceSelected` runs `NSOpenPanel`, which is replaced by a `chosen` parameter (`None` for a cancelled panel). `forcePrompt` is left out because the modelled callers never pass it.
- `Session.LastPathComponent`: `URL.lastPathComponent` is modelled as the text after the last `/`; trailing slashes and URL normalisation are not modelled.
- `startBrowserLogin`'s `NSWorkspace.open` of the login page is left out.
- `send`'s error path is left out: a throwing write setting `errorMessage`.
- The timeout handler's `terminate(force: true)` of the old process is left out: the process is identified by its attempt id.
- The chat and bubble-mode runners are I/O and left out: `sendChatPrompt`, `runClaudePromptInBubble`, `runClaudePrintPrompt`, `runShellCommand`, `runClaudeStreamingPrompt`'s `Process`/`Pipe` setup and executable discovery. So are `submitCommandFromUI`, `trustWorkspaceYes`/`No`, `checkClaudeAuthStatus` and the window-level and click-through toggles. Their stream decoding and final-result rule are modelled.
- The resume-list editing and clipboard helpers are left out: `deleteResumeSession`, `clearResumeLabel` and `updateResumeLabel` (ShellSession.swift:193-204, which replace the label of the session with a given id in place), `clearResumeSessions`, `resolvedResumeID`, `promptResumeLabel`, `saveResumeFromClipboardAndPrompt`. They are UI around the modelled list.
- The colour and theme code is AppKit and floating point and is left out: presets, `NSColor` hex and RGB parsing, font settings.
- `JSONSerialization` and `NSRegularExpression` are not modelled. JSON is an abstract `Json` value given by a `decode` parameter. Each regular expression is a hand-written scanner for its one pattern.
- `lowercased()` is ASCII-only here: Unicode case mapping is not modelled.
- ParseEvent: lowercases `type` and `subtype` in ASCII only.
- StreamDecoder.IsErrorFlag: counts `true` and the integer 1 as an error, as the `as? Bool` bridge of an `NSNumber` does. `Json` numbers are integers, so a fractional `1.0`, which the bridge also accepts, cannot be written.
- `Segmenter.ExtractPromptCommand`, `Segmenter.EntryFor`, `Segmenter.AppendTerminalEntry`, `Segmenter.FinalizeEntry`, `Segmenter.LineStep` and `EscapeNormalizer.Normalize` carry no `ensures` of their own. Their properties are the lemmas listed above: `PromptCommandMeaning`, `EntryForMeaning`, `AppendTerminalEntryMeaning`, `LineStepOk`, `NormalizeIsClean`.
- The prompt marker that `extractPromptCommand` tests first is the `promptMarker` string of `Session.ShellSession.constructor`. As written it is the empty string (see Findings); a one-glyph marker is what was evidently intended.
- Strings are sequences of Unicode code points, not Swift `Character`s (extended grapheme clusters). `hasPrefix`, `dropFirst`, `range(of:)`, `contains` and `count` therefore work per code point here. Text where the two differ, such as a flag emoji made of two regional indicators or a letter with a combining accent, may split differently.
- Session.TornDown: does not record the `pty?.terminate(force: true)` that `disconnect` sends the old process (ShellSession.swift:461). The process is dropped and its later events are ignored by the attempt-id guard.
- Session.StartCompleted: does not record the `process.terminate()` of a start that completes after its attempt was abandoned (ShellSession.swift:399). The session state is left unchanged, as in the source.
- RuntimeMonitor.FormatStamp: renders the stamp as `HH:mm:ss.SSS` on a 24-hour clock. `DateFormatter`'s locale, and a user setting that forces a 12-hour clock, are not modelled.

## Findings

| source | as written | input that shows it | evidently intended | confidence | as-written member | corrected member |
|---|---|---|---|---|---|---|
| Sources/ShellSession.swift:486-491 | a login button pressed while disconnected sets `pendingAction`, then calls `prepareClaudeFlow`, whose `connect` begins with `disconnect` (355, 467); that clears `pendingAction`, so `runPendingActionIfNeeded` at 407 finds nothing to replay | a disconnected session with a stored workspace; press "browser login"; the shell starts | the parked action survives the connection and is replayed once the shell is up | not executed | Session.PendingActionLostWhenDisconnected | Session.IntendedFlowReplaysAction |
| Sources/ShellSession.swift:1391 | `extractPromptCommand` first tests `trimmed.hasPrefix("")`, which holds for every string, so every non-blank line is taken for a prompt and drops its first character; no output line is ever collected and every terminal entry is recorded as `(no output)` | the lines `$ ls`, `file.txt`, `$ pwd`: `ls` is recorded without output and `ile.txt` is opened as a command | a one-glyph prompt marker, so that `file.txt` is collected as the output of `ls` | not executed | Segmenter.EmptyMarkerCollectsNothing | Segmenter.GlyphMarkerCollectsOutput |

The corrected flow, `Session.FlowRequestedIntended`, parks the action after
the connection has been prepared. `Session.IntendedFlowAgreesWhenConnected`
proves it differs from the written flow only in the disconnected case. The
class methods follow the code as written.

The prompt marker is a string parameter of the line handler and of
`Session.ShellSession.constructor`. The empty string gives the code as
written: `Segmenter.EmptyMarkerCollectsNothing` and
`Segmenter.EmptyMarkerOutputLine` show what it does to an output line. A
one-glyph marker gives the intended behaviour, which
`Segmenter.GlyphMarkerCollectsOutput` and `Segmenter.MarkerRoundTrip` prove.
