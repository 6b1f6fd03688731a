# judgegpt in Dafny

A model of the core of judgegpt, a hackathon-judging web app. Five AI judges evaluate a
submitted project, a live debate between them streams in, and several pages rank and report
the results. The model covers:

- **The live debate stream parser** of `src/components/LiveDebate.tsx`.
  - The outer read loop appends decoded chunks to a line buffer.
  - The inner loop takes complete lines and reads them as Server-Sent-Events frames.
  - The `choices[0].delta.content` of each frame is appended to `fullText`.
  - After every append, `fullText` is read again as JSON Lines. This rebuilds the message list
    and checks the last message for a consensus score.
  - The component holding this state is the class `DebateComponent.DebateView`.
- **The pages.**
  - The Leaderboard joins final reports with projects, sorts them best-first, filters by track
    and colours the scores.
  - History lists projects with their reports and where a click goes.
  - The Dashboard gives per-project averages and a status.
  - The Report page builds the bar chart, picks which judge answers a question, and holds the
    voice playback state.
  - The editable judge panel derives initials and saves edits.
- **Two edge functions.**
  - `run-debate` sorts the evaluations, picks the highest and lowest, and only debates a gap of
    at least 3.
  - `evaluate-judge` looks up the judge's system prompt, calls the model API, strips code fences
    and trims the reply, and parses it.

Builtins are modelled by hand in `Text` (JavaScript `trim`, `split`, `indexOf`, `includes`,
ASCII `toLowerCase`/`toUpperCase`), `Seqs` (`find`, `filter`) and `Sorting`.
`Array.prototype.sort` with a `b.score - a.score` comparator is modelled as a stable descending
sort:
- the functional specification is `SortDesc`;
- an in-place insertion sort over an `array` is proved equal to it;
- the pages call the in-place sort.

`JSON.parse` is a function parameter everywhere it occurs. A parse that throws is `None` or
`Err`. Network replies are parameters (`Edge.Reply`), and so is whether the API key is set.

Three behaviours of the stream handler are proved as facts of the code:
- The published message list is replaced by every non-empty extraction, and it can get shorter
  (`StreamFacts.MessagesCanShrink`).
- `onConsensus` is called again after every later frame while the last record is final
  (`StreamFacts.ConsensusRefires`).
- Any non-zero `final_score` is truthy, a negative one included (`LiveDebate.IsConsensus`).

## Model

| member | source | states |
|---|---|---|
| LiveDebate.Keep | src/components/LiveDebate.tsx:95-107 | a line contributes at most one record; only a non-blank line that does not begin with a code fence contributes one, it is the parse of the trimmed line, and its speaker and message are truthy |
| LiveDebate.ExtractFrom | src/components/LiveDebate.tsx:95-108 | never more records than lines, and every record has a truthy speaker and message |
| LiveDebate.ExtractMessages | src/components/LiveDebate.tsx:91-108 | the loop over the lines of `fullText` builds exactly the extraction `Extracted` specifies |
| LiveDebate.ClassifyCases | src/components/LiveDebate.tsx:76-81 | only a line with the exact `data: ` prefix is a frame; it is the end marker iff its trimmed rest is `[DONE]`, and otherwise its payload is that trimmed rest |
| LiveDebate.OnFrame | src/components/LiveDebate.tsx:85-116 | a parsed frame on the loop's local variables gives the session `Deliver` defines: a truthy content is appended, re-extracted, published when non-empty, and a final record with a non-zero score calls `onConsensus` |
| LiveDebate.DrainBuffer | src/components/LiveDebate.tsx:71-122 | the inner loop ends in the state `Drain` defines: ignored lines skipped, `[DONE]` stops with the rest left in the buffer, an unparsable payload is put back with its newline and stops the loop |
| LiveDebate.ReadStream | src/components/LiveDebate.tsx:61-123 | the outer loop over the chunks before `done` ends in `Run` from the cleared state |
| LiveDebate.FindJudge | src/components/LiveDebate.tsx:35-37 | the index of the first judge from `from` on whose key the lowercased speaker contains, or none when no later judge matches |
| LiveDebate.JudgeFor | src/components/LiveDebate.tsx:35-37 | `getJudgeInfo` finds a judge iff some judge of the panel matches, and then it is the first matching one |
| StreamProofs.ChunkInvariance | src/components/LiveDebate.tsx:66-123 | with no `[DONE]` line and every payload parsing, any chunking of a stream ends in the same state as the whole stream in one chunk |
| StreamProofs.SameTextSameState | src/components/LiveDebate.tsx:66-123 | two chunkings of the same text end in the same session, `fullText` included |
| StreamProofs.RunGood | src/components/LiveDebate.tsx:66-123 | when all complete lines are good, the whole read loop is the complete lines applied in order, with the text after the last newline left in the buffer |
| StreamProofs.PendingLeftOver | src/components/LiveDebate.tsx:66-74 | text after the last newline never reaches the session: it ends as if the stream had stopped after its last newline |
| StreamProofs.DrainGood | src/components/LiveDebate.tsx:71-122 | the inner loop on a buffer whose complete lines are all good applies them in order and keeps the pending text |
| StreamProofs.DrainBlocked | src/components/LiveDebate.tsx:118-121 | a first complete line whose payload does not parse is put back in front of the rest, without its carriage return, and nothing else changes |
| StreamProofs.RunStuck | src/components/LiveDebate.tsx:66-123 | once the buffer starts with a line that does not parse, no later chunk changes `fullText`, the messages or the consensus calls |
| StreamProofs.RunNoDone | src/components/LiveDebate.tsx:66-123 | with no `[DONE]` line, what the component ends with is the complete lines up to the first unparsable one applied in order, and with such a line the session ends stuck |
| StreamProofs.NoDoneSameView | src/components/LiveDebate.tsx:66-123 | with no `[DONE]` line, two chunkings of one text end with the same `fullText`, message list and consensus calls, whether payloads parse or not |
| StreamProofs.ClassifyStrip | src/components/LiveDebate.tsx:76-78 | removing a trailing carriage return does not change how a line is read |
| Seqs.TakeWhileSpec | src/components/LiveDebate.tsx:72-122 | the lines the inner loop gets through before it stops are a prefix that all pass, shorter than the lines iff some line fails, and then the next line fails |
| Seqs.TakeWhileAppend | src/components/LiveDebate.tsx:72-122 | the lines got through in `a + b` are all of `a` and then those of `b` when every line of `a` passes, else those of `a` alone |
| StreamFacts.ExtractFromAppend | src/components/LiveDebate.tsx:95-108 | extraction is line by line: the records of two runs of lines are concatenated |
| StreamFacts.ExtractFromSound | src/components/LiveDebate.tsx:95-108 | every record is the parse of some trimmed line |
| StreamFacts.ExtractedLines | src/components/LiveDebate.tsx:91-108 | the extraction reads the complete lines and then the unfinished last line |
| StreamFacts.ExtractedAppendSpace | src/components/LiveDebate.tsx:96 | whitespace appended to the last line changes no record |
| StreamFacts.RunInv | src/components/LiveDebate.tsx:66-123 | over any chunks, a non-empty extraction of `fullText` is the published list, every consensus call has a non-zero score and a non-empty message, there are none without a handler, and `fullText` and the call log only grow |
| StreamFacts.RunFromStart | src/components/LiveDebate.tsx:39-123 | the invariant holds for every session that starts cleared |
| StreamFacts.MessagesCanShrink | src/components/LiveDebate.tsx:110-111 | a frame that extends the last line so that its record stops parsing publishes a shorter list |
| StreamFacts.ConsensusRefires | src/components/LiveDebate.tsx:110-115 | after a consensus, a frame adding only whitespace to the last line calls `onConsensus` again with the same score and message |
| StreamFacts.DoneDependsOnChunking | src/components/LiveDebate.tsx:72-81 | a `[DONE]` line followed by a payload line gives different `fullText` when sent in one chunk and when sent in two |
| StreamFacts.DoneOneChunk | src/components/LiveDebate.tsx:81 | a chunk starting with a `[DONE]` line leaves its rest unread in the buffer |
| StreamFacts.PayloadChunk | src/components/LiveDebate.tsx:72-116 | a chunk that is one parsable payload line delivers its frame |
| LineBuffer.LinesAppend | src/components/LiveDebate.tsx:69-74 | the complete lines of `s + t` are those of `s`, then those of the pending text of `s` followed by `t` |
| LineBuffer.SplitLines | src/components/LiveDebate.tsx:91 | splitting on newlines gives the complete lines and then the pending text |
| LineBuffer.PendingNoNewline | src/components/LiveDebate.tsx:72 | the pending text holds no newline |
| LineBuffer.PendingSuffix | src/components/LiveDebate.tsx:69-74 | the pending text is what the buffer ends with |
| LineBuffer.HeadPending | src/components/LiveDebate.tsx:69-74 | the buffer is the text up to its last newline followed by the pending text |
| LineBuffer.HeadLines | src/components/LiveDebate.tsx:69-74 | the text up to the last newline has the same complete lines and nothing pending |
| DebateComponent.DebateView.constructor | src/components/LiveDebate.tsx:23-26 | not started, not streaming, no messages, an empty stream buffer and no consensus calls |
| DebateComponent.DebateView.StartDebate | src/components/LiveDebate.tsx:39-129 | the component ends started and not streaming; on an ok response the messages, shown text and consensus calls are those of `Run`, and a non-empty extraction of the shown text is the list on screen; on a failed response it is left cleared |
| Text.TrimSpec | src/components/LiveDebate.tsx:77 | `trim` leaves no whitespace at either end and is empty iff the string is all whitespace |
| Text.TrimBounds | src/components/LiveDebate.tsx:80 | the trimmed string is a slice with only whitespace cut on either side |
| Text.TrimAppendSpace | src/components/LiveDebate.tsx:96 | appended whitespace does not change the trimmed string |
| Text.IndexOfSpec | src/components/LiveDebate.tsx:72 | `indexOf` is -1 iff the character is absent, and otherwise no earlier position holds it |
| Text.ContainsSpec | src/components/LiveDebate.tsx:36 | `includes` holds iff the substring occurs at some position |
| Text.SplitJoin | src/components/LiveDebate.tsx:91 | joining the pieces of `split` with the separator gives the string back |
| Text.JoinSplit | src/components/LiveDebate.tsx:91 | splitting a join of separator-free pieces gives the pieces back |
| Text.SplitPieces | src/components/EditableJudgePanel.tsx:29 | no piece of `split` contains the separator |
| Seqs.Find | src/pages/Leaderboard.tsx:31 | `find` returns something iff some element passes, and then the first one that does |
| Seqs.FilterMembers | src/pages/Leaderboard.tsx:41 | `filter` keeps exactly the elements that pass |
| Seqs.FilterAppend | src/pages/Dashboard.tsx:33 | `filter` distributes over concatenation, so it keeps the order |
| Sorting.SortedDesc | src/pages/Leaderboard.tsx:34 | the sort orders by descending key |
| Sorting.SortPermutes | src/pages/Leaderboard.tsx:34 | the sort is a permutation of its input |
| Sorting.SortStable | src/pages/Leaderboard.tsx:34 | the elements with one key come out in their input order |
| Sorting.InsertLast | supabase/functions/run-debate/index.ts:19 | swapping one element down into the ordered prefix before it gives the stable insertion of that element, the rest untouched |
| Sorting.SortInPlace | supabase/functions/run-debate/index.ts:19 | the in-place sort leaves the array in the order of `SortDesc`: ordered, a permutation and stable |
| Sorting.FilterOrdered | src/pages/Leaderboard.tsx:41 | filtering an ordered list leaves it ordered |
| Leaderboard.EntryForSpec | src/pages/Leaderboard.tsx:31-32 | a report gets an entry iff some project has its id, and then the first such project with the report's score |
| Leaderboard.JoinedSpec | src/pages/Leaderboard.tsx:30-33 | an entry is on the board iff it is the entry of some report |
| Leaderboard.JoinedComplete | src/pages/Leaderboard.tsx:30-33 | when every report has a project, the board has one entry per report, in report order |
| Leaderboard.BoardSpec | src/pages/Leaderboard.tsx:25-35 | the board is ordered best-first, a permutation of the joined entries and no longer than the reports, and it is empty when either query returned nothing |
| Leaderboard.BoardTies | src/pages/Leaderboard.tsx:30-34 | entries with equal scores keep the order of their reports |
| Leaderboard.ShownSpec | src/pages/Leaderboard.tsx:41 | `all` shows every entry; another filter shows exactly the entries of that track; either way the best-first order is kept |
| Leaderboard.RowsSpec | src/pages/Leaderboard.tsx:87-93 | row `i` has rank `i + 1` and entry `i`; ranks increase; the tone is green from 8, amber from 6 and red below; on an ordered board a better rank never has a lower score or a worse tone |
| Leaderboard.LeaderboardPage.Load | src/pages/Leaderboard.tsx:23-39 | loading ends; with no reports or no projects the entries stay as they were; otherwise, after the in-place sort, they are the board |
| Leaderboard.LeaderboardPage.SetFilter | src/pages/Leaderboard.tsx:62 | only the filter changes |
| Leaderboard.Mount | src/pages/Leaderboard.tsx:17-41 | a mounted page that has loaded shows the board filtered by track, ranked from 1 |
| History.Items | src/pages/History.tsx:22-28 | no projects give no items; otherwise there is one item per project, in query order |
| History.ItemReport | src/pages/History.tsx:27 | an item's report is the first report for its project, none iff there is no such report, and always none when the report query returned nothing |
| History.TargetSpec | src/pages/History.tsx:59 | a click goes to `/report/` iff there is a report and to `/evaluate/` iff there is not, followed by the project id |
| Dashboard.ProjectScoresSpec | src/pages/Dashboard.tsx:32-34 | a project's rows are exactly the score rows with its id, in row order |
| Dashboard.AverageScore | src/pages/Dashboard.tsx:36-43 | there is no average iff the project has no score rows |
| Dashboard.StatusSpec | src/pages/Dashboard.tsx:45-47 | `Scored` iff some row has the project's id, which is exactly when there is an average |
| Dashboard.SumBounds | src/pages/Dashboard.tsx:39-41 | with every criterion between 1 and 10, the sum of row means lies between the row count and ten times it |
| Dashboard.AverageBounds | src/pages/Dashboard.tsx:36-43 | with every criterion between 1 and 10, the average lies between 1 and 10 |
| Report.ChartData | src/pages/Report.tsx:57-61 | one bar per evaluation |
| Report.ChartSpec | src/pages/Report.tsx:57-61 | each bar has its evaluation's score; the first five are named by the panel's surnames and coloured by `JUDGE_COLORS`; the rest take the evaluation's judge name and `#888` |
| Report.BarNames | src/pages/Report.tsx:58 | bar `i` of the first five is named by the last word of judge `i`'s name |
| Report.RouteSpec | src/pages/Report.tsx:74-78 | the question goes to the judge type of the first keyword group it contains, in the order of the if/else chain, or to none |
| Report.RouteLater | src/pages/Report.tsx:74-78 | a question that contains a keyword of one group and none of an earlier group goes to that group's type, whatever later keywords it also contains |
| Report.RouteMiss | src/pages/Report.tsx:74-78 | the question goes nowhere iff it contains no keyword at all, and a routed type always comes from a group the question hits |
| Report.Pick | src/pages/Report.tsx:73-78 | the picked evaluation is one of the evaluations |
| Report.PickSpec | src/pages/Report.tsx:73-78 | with a routed type, the first evaluation of that type, falling back to the first evaluation; without one, the first evaluation |
| Report.BestEvalGuard | src/pages/Report.tsx:69 | no evaluation is chosen iff the question is blank, there is no project or there are no evaluations |
| Report.BestEvalIgnoresCase | src/pages/Report.tsx:69-78 | questions equal up to case choose the same evaluation |
| Report.VoicePlayer.StopVoice | src/pages/Report.tsx:63-66 | the held Audio object is paused and dropped and the flag cleared; a valid player then has nothing sounding |
| Report.VoicePlayer.BeginPlay | src/pages/Report.tsx:99-101 | `stopVoice`, then the flag is set |
| Report.VoicePlayer.FinishPlay | src/pages/Report.tsx:102-120 | a failed fetch clears the flag; otherwise a new Audio object is held, and it sounds unless `play` rejects, which clears the flag |
| Report.VoicePlayer.Ended | src/pages/Report.tsx:116 | the flag and the handle are cleared and that object stops sounding |
| Report.PlayInTurn | src/pages/Report.tsx:99-121 | two plays one after the other leave exactly one object sounding, the held one |
| Report.OverlappingPlays | src/pages/Report.tsx:63-66 | play, stop during the fetch, play again: after a final stop the flag is off and nothing is held, but the first object still sounds |
| Report.VoicePlayer.FinishPlayReleasing | src/pages/Report.tsx:112-117 | the completion that releases the held object first keeps the player valid |
| Report.OverlappingPlaysReleased | src/pages/Report.tsx:99-121 | the same clicks with the releasing completion leave nothing sounding |
| Report.ReplayReleasing | src/pages/Report.tsx:63-121 | with the releasing completion, any sequence of stop clicks, play clicks, fetch completions and `ended` events keeps at most one object sounding, the held one |
| Report.AtMostOneSounds | src/pages/Report.tsx:27 | a valid player has at most one object sounding |
| JudgePanel.Initials | src/components/EditableJudgePanel.tsx:29 | initials are at most two characters |
| JudgePanel.FirstCharsSpec | src/components/EditableJudgePanel.tsx:29 | the first characters of the space-separated words are the characters that start a word |
| JudgePanel.InitialsSpec | src/components/EditableJudgePanel.tsx:29 | the initials are the first two word-starting characters, uppercased |
| JudgePanel.UpdatedJudgesSpec | src/components/EditableJudgePanel.tsx:28-30 | the saved list has slot `i` renamed with the new role and its initials recomputed, the other fields of that slot and all other slots unchanged |
| JudgePanel.JudgeEditor.constructor | src/components/EditableJudgePanel.tsx:15-18 | no slot is being edited and the fields are empty |
| JudgePanel.JudgeEditor.OpenEdit | src/components/EditableJudgePanel.tsx:20-24 | slot `i` is being edited and the fields hold its name and role |
| JudgePanel.JudgeEditor.Type | src/components/EditableJudgePanel.tsx:70-74 | only the typed fields change |
| JudgePanel.JudgeEditor.Close | src/components/EditableJudgePanel.tsx:43 | closing the dialog clears the open slot; the list, the typed fields and what was handed on are unchanged |
| JudgePanel.JudgeEditor.SaveEdit | src/components/EditableJudgePanel.tsx:26-33 | with no slot being edited nothing is handed on; otherwise the updated list is handed to `onUpdateJudges`; the dialog closes either way |
| Edge.NatToString | supabase/functions/run-debate/index.ts:64 | the decimal rendering of a status is one or more digits |
| Edge.NatToStringValue | supabase/functions/run-debate/index.ts:64 | the digits read back give the number |
| RunDebate.Extremes | supabase/functions/run-debate/index.ts:19-21 | the first of the sorted copy has the highest score and the last the lowest, and both are request evaluations |
| RunDebate.RespondSpec | supabase/functions/run-debate/index.ts:15-76 | the API is called iff the key is set and the gap is at least 3; a smaller gap answers `Score gap too small for debate`; a debate carries the reply text and the high and low sides, which come from the evaluations |
| RunDebate.SingleEvaluation | supabase/functions/run-debate/index.ts:19-27 | a single evaluation never debates |
| RunDebate.RespondErrors | supabase/functions/run-debate/index.ts:15-82 | a missing key, an empty list and a failed API call each answer 500 with their error message; every answer is a 200 or carries an error |
| RunDebate.Serve | supabase/functions/run-debate/index.ts:13-82 | the handler, sorting a copy in place, answers as `Respond` defines |
| EvaluateJudge.LookupAsWritten | supabase/functions/evaluate-judge/index.ts:8-14 | the record lookup finds nothing iff the key is neither a judge type nor an inherited `Object.prototype` property |
| EvaluateJudge.InheritedKeyPasses | supabase/functions/evaluate-judge/index.ts:29-32 | `toString` passes the unknown-type guard although it is no judge type |
| EvaluateJudge.SystemPrompt | supabase/functions/evaluate-judge/index.ts:29-32 | a prompt is found iff the type is one of the five judge types |
| EvaluateJudge.SystemPromptSpec | supabase/functions/evaluate-judge/index.ts:8-32 | the corrected lookup finds a prompt exactly for the five types, and every type it accepts also passes the guard as written |
| EvaluateJudge.CleanPlain | supabase/functions/evaluate-judge/index.ts:72 | a reply with no backtick is only trimmed |
| EvaluateJudge.CleanFenced | supabase/functions/evaluate-judge/index.ts:72 | a reply fenced as json gives its trimmed body |
| EvaluateJudge.StripNoFence | supabase/functions/evaluate-judge/index.ts:72 | no three backticks in a row survive the replacement |
| EvaluateJudge.NoFenceStrip | supabase/functions/evaluate-judge/index.ts:72 | the replacement leaves a text without fences unchanged |
| EvaluateJudge.CleanIdempotent | supabase/functions/evaluate-judge/index.ts:72 | the cleaned text has no fence and no surrounding whitespace, and cleaning it again changes nothing |
| EvaluateJudge.SystemSentSpec | supabase/functions/evaluate-judge/index.ts:29-62 | the request's `system` field is the prompt exactly for a judge type; an inherited key sends `{}` for `__proto__` and no field at all for the others, which are methods |
| EvaluateJudge.Answer | supabase/functions/evaluate-judge/index.ts:65-77 | once the request is sent, a 200 iff the reply is ok and its cleaned text parses |
| EvaluateJudge.RespondSpec | supabase/functions/evaluate-judge/index.ts:21-83 | a 200 iff the key is set, the type passes the guard as written (a judge type or an inherited key), the reply is ok and the cleaned text parses; every other answer is a 500 with its error, the unknown-type message naming the type; the API is called iff the key is set and the type passes that guard, with the prompt iff it is a judge type |
| EvaluateJudge.InheritedKeyReachesApi | supabase/functions/evaluate-judge/index.ts:29-62 | with the key set, `toString` reaches the API with no `system` field, where the corrected handler stops it |
| EvaluateJudge.RespondCorrected | supabase/functions/evaluate-judge/index.ts:29-32 | with the own-key guard, the API is called iff the key is set and the type is one of the five, always with that type's prompt |
| EvaluateJudge.RespondCorrectedSpec | supabase/functions/evaluate-judge/index.ts:21-83 | with the corrected guard, a 200 iff the key is set, the type is one of the five, the reply is ok and the text parses; other types get the unknown-type error |
| EvaluateJudge.CorrectedAgrees | supabase/functions/evaluate-judge/index.ts:29-32 | the corrected handler answers exactly as the written one on every type that is no inherited key |

## Left out

- Byte decoding (`TextDecoder`) is not modelled: chunks are given as decoded text.
- The JSON grammar is not modelled. `JSON.parse` and `JSON.stringify` are parameters, and a frame parse that throws, or a payload of `null`, is `None`.
- Case mapping is ASCII only: `toLowerCase` and `toUpperCase` on letters outside ASCII are not modelled.
- `toFixed(1)` on scores and averages is not modelled. The Dashboard average is the exact real.
- Real numbers stand for JavaScript numbers. NaN, infinities and rounding are not modelled, and neither is a comparator returning NaN.
- `fetch`, the database queries, `Deno.env` and `console` are parameters or left out. The result of each query is an `Option` value.
- Timers and scrolling are left out: the score animation in `src/pages/Report.tsx` (lines 44-55) and the scroll effect in `src/components/LiveDebate.tsx`.
- The `remainder` variable of the extraction loop is left out: it is written but never read.
- A failing `reader.read()` is left out, and so is an exception thrown by `onConsensus`. The caller's handler is assumed to return.
- `DebateComponent.DebateView.StartDebate`: the states between the start and the end of the stream are not exposed. They are the prefixes `Run` produces over the chunk prefixes.
- Rendering and markup are left out: cards, badges, avatars and the toast messages.
- The prompt texts of both edge functions are left out. `EvaluateJudge.SystemPrompt` returns the key it found instead of the text.
- The request shape is not modelled. A non-array `evaluations`, a missing `score` field and a malformed model reply (`data.content[0].text` failing) are left out. The empty evaluation list is modelled as the TypeError it raises.
- The `simulate-qa` request of the Report page and its answer are left out. `Report.BestEval` models the choice of evaluation that precedes it.
- JudgePanel.Initials: strings are sequences of code points, while `w[0]` and `slice(0, 2)` act on UTF-16 code units, so a name with a character outside the Basic Multilingual Plane gets different initials (`JudgePanel.FirstChars` takes the whole character, the source its high surrogate).
- `JudgePanel.JudgeEditor.OpenEdit` requires a slot index in range: the dialogs are rendered from the list itself.
- `JudgePanel.JudgeEditor.SaveEdit` requires `Valid()`: the list given as props shrinking while a dialog is open is not modelled.
- `Report.VoicePlayer` models which Audio objects are sounding as a set that the browser would hold. `pause` and `play` are not modelled beyond it.
- `Report.VoicePlayer.Ended` requires the object to be sounding: only a sounding object fires `ended`.
- The CORS preflight (`OPTIONS`) answer of both edge functions is left out.

## Findings

| source | as written | input that shows it | evidently intended | confidence | as-written member | corrected member |
|---|---|---|---|---|---|---|
| supabase/functions/evaluate-judge/index.ts:29-32 | `SYSTEM_PROMPTS[judgeType]` on a plain object literal also finds inherited `Object.prototype` properties, so the unknown-type guard passes them | `judgeType` = `"toString"`: a function is found, the guard passes and the API is called; `JSON.stringify` leaves a function-valued member out, so the request has no `system` field (for `"__proto__"` it is `"system":{}`) | only the five judge types pass, every other type gets `Unknown judge type` | not executed | EvaluateJudge.InheritedKeyReachesApi | EvaluateJudge.RespondCorrected |
| src/pages/Report.tsx:99-117 | `playVoice` stops the held audio before awaiting the speech fetch, then stores the new Audio object without releasing the one held by then | click play, click stop while the fetch is pending, click play again, let both fetches complete: two voices sound at once and a later stop pauses only the second | at most one voice sounds, and stop silences it | not executed | Report.OverlappingPlays | Report.ReplayReleasing |
