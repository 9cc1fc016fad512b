# PRD Generator wizard core, modelled in Dafny

The PRD Generator is a single-page React application. It interviews a
user about a product idea and then generates three documents in turn: an
iteration plan, user stories, and a final PRD. This project models the
application's core logic, all of it in `src/App.tsx`, and proves properties
about it.

- **Stream decoder** (`stream_decoder.dfy`, module `StreamDecoder`) models
  `callGeminiAPI`. Response chunks are appended to a buffer, which is split
  on line feeds. The trailing fragment stays in the buffer, and every
  non-blank complete line goes to a JSON text extractor. Extracted text
  accumulates, and a progress estimate capped at 95 is reported after each
  append. The module also models the call's failure cases: missing key,
  rejected fetch, bad status, missing body, and empty text.
- **Chat log** (`chat_log.dfy`, module `ChatLog`) models the step-1 and
  step-2 logs:
  - the user-answer count and the six-answer quota;
  - the reply that follows an answer: the next mock question, the next
    real question, or the closing message;
  - the question/answer pairing that builds the summary prompt.
- **Wizard** (`wizard.dfy`, module `Wizard`) models the six-step state
  machine. It covers problem submission, both collection steps, the three
  generators with their completion paths, modification requests, `goBack`,
  the restart button and the Ctrl+Enter dispatcher. The problem submit and
  the three document generators are split at their first `await`:
  - the function named after the handler is the synchronous entry;
  - the function ending in `Done` is the continuation, which takes the
    calls' outcomes as parameters (`None` for `null`).

  The two answer submits and the modification requests are each one atomic
  update that takes the reply as a parameter.
- **Shared pieces**: `js_text.dfy` (module `JsText`) holds JavaScript's
  `trim()` with its exact white-space set, and `split('\n')` / `join('\n')`.
  `base.dfy` (module `Base`) holds `Option`, `Result`, `Init` and `Last`.

The main results:

- The decoder's state after any chunking equals a reference defined from
  the concatenated text alone. So the result does not depend on where the
  chunks split the stream.
- Skipped lines are invisible, and reported progress never decreases.
- The pairing is exact: every question is paired with its first later
  answer, and only unanswered questions drop out.
- A complete mock interview yields exactly the canned questions paired
  with the answers, in order. The gate opens exactly at the sixth answer.
- While busy, advancing, submitting a problem, an answer or a modification
  request, and restarting are all no-ops: the page disables or hides each of
  these controls while `isProcessing` is set. Going back is one exception:
  on steps 1 and 2 it stays possible while fewer than six answers are in.
  Going back while the first question is pending ends the same as going back
  after it arrives. The API key dialog is the other: a key test started with
  Enter clears `busy` when it completes, pending call or not.
- The next buttons of steps 3 and 4 differ from Ctrl+Enter exactly where the
  step's artifact is missing: after a failed plan call the button still
  moves on with an empty plan.
- A session of modification requests touches nothing but the modification
  state and the current step's own artifact. The history's user entries are
  exactly the requests, in order.
- Going back and forward again regenerates the step's artifact from
  scratch.

Behaviours of the code worth knowing:

- **Going back is not lossy.** The page warns next to every back button
  that the current step's content will be deleted (`src/App.tsx:3313-3322`,
  `3457-3466`, `3633-3642`). But `goBack` (`src/App.tsx:3047-3049`) only
  decrements the step, and the logs and artifacts stay in place
  (`Wizard.GoBack` adds where the page offers the button). They are
  cleared when a generation step is entered again, which is when the
  generator starts. See `Wizard.GoBackKeepsStepData` and
  `Wizard.BackThenForwardRegenerates`.
- **Restart is partial.** It resets only the step, problem, basic log,
  plan, stories, PRD and modification state. The design log, all summaries,
  the design enrichment and the mode survive. See
  `Wizard.RestartKeepsDesignLogAndSummaries`.
- **Most busy checks live in the page, not in the handlers.** Only the
  design-answer submit tests `isProcessing` itself. The model folds the
  page's guards into the handlers they protect:
  - the problem submit button is disabled while busy (`src/App.tsx:3196`);
  - the answer input and send button are disabled (`src/App.tsx:3291-3304`);
  - the modification buttons are disabled (`src/App.tsx:3618-3623`);
  - on steps 3 and 4 the back button sits in the branch shown only while
    idle (`src/App.tsx:3585`, `3748`). On steps 1 and 2, one back button is
    shown once six answers are in and only while idle (`src/App.tsx:3310`,
    `3454`). The other is shown while fewer than six answers are in,
    whatever `isProcessing` says (`src/App.tsx:3339-3351`, `3483-3495`).
    Step 5 has no back button;
  - the restart button is shown only while idle (`src/App.tsx:3914-3922`).

  The header button that opens the API key dialog is always shown
  (`src/App.tsx:3076`). In the dialog the connect button is disabled while
  busy, but pressing Enter in the key field runs `testGeminiAPI` without
  that check (`src/App.tsx:4135`). The test sets and clears `isProcessing`
  itself (`src/App.tsx:211`, `242`), so it can end a pending call's busy
  period early. See `Wizard.KeyTestEndsPendingCall`.
- **The next buttons of steps 3 and 4 do not check the artifact.** Ctrl+Enter
  moves on from step 3 only with a plan and from step 4 only with stories
  (`src/App.tsx:103-106`). The buttons (`src/App.tsx:3645-3650`, `3815-3820`)
  are shown whenever the wizard is idle, so after a failed call the next
  document is generated from an empty one. See `Wizard.NextExtendsAdvance`
  and `Wizard.NextAfterFailedPlan`.

## Model

| member | source | states |
|---|---|---|
| JsText.Trim | src/App.tsx:308 | `trim()` returns the middle slice of the string, and the parts removed on either side are all ECMAScript white space. The result is empty exactly when the string is blank, and otherwise it starts and ends with a non-space. |
| JsText.TrimIdempotent | src/App.tsx:810-814 | Trimming an already trimmed answer changes nothing. |
| JsText.Split | src/App.tsx:304-305 | `split('\n')` always yields at least one piece, and no piece holds a line feed. |
| JsText.JoinSplit | src/App.tsx:304-305 | Joining the pieces of `split('\n')` with line feeds gives back the original buffer, so splitting loses no text. |
| JsText.SplitJoin | src/App.tsx:304-305 | Splitting undoes joining when no piece holds a line feed, so split and join are inverses. |
| JsText.SplitAppend | src/App.tsx:301-305 | Splitting a longer buffer leaves the earlier complete lines unchanged. Only the old unterminated fragment is glued to the new text. |
| StreamDecoder.Progress | src/App.tsx:318-321 | The estimate lies between 0 and 95. It is below 95 exactly when the text is shorter than 2850 characters (95% of 3000), and then it is proportional to the text length (100 at 3000 characters). It is positive for non-empty text. |
| StreamDecoder.ProgressMonotone | src/App.tsx:320 | A longer accumulated text never yields a lower estimate. |
| StreamDecoder.Contribution | src/App.tsx:308-315 | A blank line contributes nothing, and so does a line the extractor rejects. A non-blank line the extractor accepts contributes exactly the extracted text. |
| StreamDecoder.ProcessLines | src/App.tsx:307-326 | Processing lines keeps the buffer and the earlier reports. It appends the lines' contributions to the text, in order, with one report per contributing line. |
| StreamDecoder.FeedIsReference | src/App.tsx:295-328 | After any sequence of chunks, the decoder equals the reference state computed from the concatenated text: the buffer is the last fragment, and the complete lines are processed in order. |
| StreamDecoder.ChunkingIndependence | src/App.tsx:295-328 | Two chunkings of the same text leave the decoder in the same state. |
| StreamDecoder.BufferIsLastFragment | src/App.tsx:303-305 | The buffer holds no line feed, is a suffix of everything received, and is preceded by a line feed unless it is the whole text. |
| StreamDecoder.FullTextIsTexts | src/App.tsx:307-316 | The accumulated text is the in-order concatenation of the contributions of the complete lines received. |
| StreamDecoder.DecodeLines | src/App.tsx:295-334 | A stream of terminated lines plus a final fragment decodes to the lines' contributions. The final fragment stays in the buffer and is never decoded. |
| StreamDecoder.SkippedLineInvisible | src/App.tsx:307-326 | Inserting a line that contributes nothing (blank, unparsable, or without text) anywhere among the lines does not change the decoded text. |
| StreamDecoder.ProgressNonDecreasing | src/App.tsx:316-322 | The reported values lie in (0, 95] and never decrease, and the last one is the estimate for the text so far. There is exactly one value per contributing line. |
| StreamDecoder.Decode | src/App.tsx:330-334 | A body succeeds exactly when its complete lines yield some text, and then it returns that text. Otherwise it fails with the empty-text error. |
| StreamDecoder.Call | src/App.tsx:248-339 | The call fails with the missing-key error exactly when no key is set. A rejected fetch, a status outside 200..299 and a missing body fail with their own errors, in that order, before any decoding. For an ok response with a body, the call succeeds exactly when the body's complete lines yield some text, returns that text, and otherwise fails with the empty-text error. |
| StreamDecoder.CallSucceedsIff | src/App.tsx:280-338 | A call succeeds exactly when a key is set, the response is ok and has a body, and the read loop accumulates some text from the body's chunks. That accumulated text is then the result. |
| StreamDecoder.ReadStream | src/App.tsx:290-328 | The read loop with its inner line loop computes the same text, reports and final buffer as the reference state. |
| StreamDecoder.ReadLines | src/App.tsx:307-326 | The inner loop over one round's complete lines leaves the buffer alone and produces the same text and reports as processing those lines one by one. |
| ChatLog.UserAnswerCount | src/App.tsx:525 | The count of user messages never exceeds the log's length. |
| ChatLog.UserAnswerCountIsUserMessages | src/App.tsx:525 | The count equals the number of positions that hold a user message. |
| ChatLog.UserAnswerCountAppend | src/App.tsx:521-525 | Counting is additive over concatenation. |
| ChatLog.UserTexts | src/App.tsx:521-525 | The texts of the user messages, in order, number exactly the answer count. |
| ChatLog.AiMessageUncounted | src/App.tsx:94-101 | Inserting an `ai` message at any position leaves the count unchanged. |
| ChatLog.MockNextQuestion | src/App.tsx:656-667 | After `k` answers, a next mock question exists exactly when the list has an entry `k`. It is then a question message with index `k`. |
| ChatLog.Follower | src/App.tsx:527-675 | The message that follows the `k`-th answer is always from `ai`. From the sixth answer on it is the closing message. Before that it is question `k`: in mock mode it exists exactly when the list has entry `k` and holds that entry, and in real mode it exists exactly when the reply is non-empty and holds the trimmed reply. |
| ChatLog.Respond | src/App.tsx:518-676 | One answer appends exactly one user message, so the count rises by one, and at most one `ai` message follows it. Below six answers, the follower is question `k`: in mock mode it is present exactly when the list has entry `k` and holds that entry, and in real mode it is present exactly when the reply is non-empty and holds the trimmed reply. From the sixth answer on, the closing message always follows. |
| ChatLog.FirstUserFrom | src/App.tsx:688-690 | The search returns the first user message at or after the start position, or nothing exactly when none exists. |
| ChatLog.FirstAnswer | src/App.tsx:688-690 | The scan returns the first position at or after its start that holds a user message, or nothing when no such position exists. |
| ChatLog.NoUserNoPairs | src/App.tsx:685-694 | Without a later user message, no question is paired. |
| ChatLog.PairsAppendAi | src/App.tsx:685-694 | Appending an `ai` message does not change the pairing. |
| ChatLog.PairsAppendUnneededAnswer | src/App.tsx:685-694 | When every question is answered, a further user message adds no pair. |
| ChatLog.PairsAnswerAwaited | src/App.tsx:685-694 | When only the last message's question is unanswered, an answer adds exactly that question/answer pair at the end. |
| ChatLog.PairsAndPendingCount | src/App.tsx:685-694 | Paired questions plus unanswered questions are all the questions. |
| ChatLog.PairsCoverAllQuestionsIff | src/App.tsx:685-694 | There are never more pairs than questions, and the two counts are equal exactly when every question is answered. |
| ChatLog.MockTurnPairs | src/App.tsx:656-667 | A mock answer to the awaited question adds exactly that pair. When a next question follows, the log awaits an answer again. |
| ChatLog.PairQuestions | src/App.tsx:685-694 | One pass over the log: for each question it looks for the first later user message and keeps the pair only when one exists. The result is exactly the pairing `PairQA`. |
| Wizard.Opening | src/App.tsx:500-512 | A fresh log of intro plus first question awaits its first answer, has no answers and no pairs, and ends with question 0. |
| Wizard.SubmitProblem | src/App.tsx:435-515 | While busy (the button is disabled) or for a blank problem nothing changes. Otherwise the wizard moves to step 1, and nothing else changes except `busy` (set in real mode) and the log. In mock mode with questions available, the log awaits the answer to canned question 0. |
| Wizard.SubmitProblemDone | src/App.tsx:481-496 | Only `busy` (cleared) and the basic log may change. A returned question replaces the log with a fresh opening whose question 0 is the trimmed reply, with no answers and no pairs. A failed call changes nothing else. |
| Wizard.ChatSubmit | src/App.tsx:518-676 | While busy, or for blank input, nothing changes. Otherwise only the basic log changes: it keeps its old messages, gains the untrimmed input as the next message, and its answer count rises by one. |
| Wizard.DetailedChatSubmit | src/App.tsx:809-996 | The same for the design log, except that the stored answer is the trimmed input. |
| Wizard.GenerateDetailedInfo | src/App.tsx:679-805 | The wizard moves to step 2. Real mode only sets `busy`. Mock mode stores the canned summary, leaves `busy` clear, and opens the design log at canned question 0. |
| Wizard.GenerateDetailedInfoDone | src/App.tsx:706-796 | `busy` is cleared. A returned summary is stored trimmed. A returned question replaces the design log with a fresh opening whose question 0 is the trimmed reply, with no answers and no pairs. Missing replies keep the old values, and nothing else changes. |
| Wizard.GenerateIterationPlan | src/App.tsx:1203-1210 | Entering step 3 sets `busy`, clears the plan, its summary and the modification state, and changes nothing else. |
| Wizard.GenerateIterationPlanDone | src/App.tsx:1186-1465 | `busy` is cleared. The enrichment is stored only when a key exists and it came back. Real mode stores the plan if it came back, and its summary only then. Mock mode stores the canned plan and summary. Nothing else changes. |
| Wizard.GenerateUserStories | src/App.tsx:1468-1474 | Entering step 4 sets `busy`, clears the stories and the modification state, and changes nothing else. |
| Wizard.GenerateUserStoriesDone | src/App.tsx:1561-1678 | `busy` is cleared. Real mode stores the stories if they came back, and mock mode stores the canned stories. Nothing else changes. |
| Wizard.GenerateFinalPrd | src/App.tsx:1683-1690 | Entering step 5 sets `busy`, clears the PRD, its summary and the modification state, and changes nothing else. |
| Wizard.GenerateFinalPrdDone | src/App.tsx:2521-2932 | `busy` is cleared. Real mode stores the fenced PRD if it came back, and its summary only then. Mock mode stores the PRD template filled with the problem, plan, stories and date, and the canned summary. Nothing else changes. |
| Wizard.RequestModification | src/App.tsx:2935-3034 | While busy, for a blank request, or before step 3, nothing changes. Otherwise the request joins the history and the box is cleared. A real reply that came back replaces the current step's artifact (fenced for the PRD) and is acknowledged with the done message. A failed real call adds nothing more. Mock mode appends the mock notice and keeps the artifact. The logs, summaries, enrichment, mode and other steps' artifacts never change. |
| Wizard.ModificationSession | src/App.tsx:2935-3034 | After any number of non-blank requests on step 3, 4 or 5, only the modification state and the step's own artifact may differ (in mock mode not even the artifact). The request box is empty, and the history's user entries are the earlier ones followed by the requests, in order. |
| Wizard.GoBack | src/App.tsx:3047-3049 | Where the page shows a back button, the step drops by one. Elsewhere nothing changes: on steps 0 and 5, on steps 3 and 4 while busy, and on steps 1 and 2 while busy with six answers in. Nothing but the step ever changes. |
| Wizard.Restart | src/App.tsx:3966-3976 | While idle, returns to step 0 and empties the problem, basic log, plan, stories, PRD and modification state. While busy (the button is hidden) nothing changes. No other field ever changes. |
| Wizard.Advance | src/App.tsx:88-108 | Ctrl+Enter either moves exactly one step forward or changes nothing at all. It moves exactly when idle and: on step 0 the problem is not blank, on steps 1 and 2 the step's log has six answers, on step 3 a plan exists, on step 4 stories exist. Each move runs that step's handler. |
| Wizard.QuotaGate | src/App.tsx:93-102 | From step 1 or 2 the wizard advances exactly when it is idle and the step's log has at least six user answers. Otherwise nothing changes. |
| Wizard.GateIgnoresAiMessages | src/App.tsx:94-101 | An `ai` message inserted anywhere in a log never changes whether the gate is open. |
| Wizard.Next | src/App.tsx:3645-3650 | The next buttons either move exactly one step forward or change nothing. They move exactly when idle and: on step 0 the problem is not blank, on steps 1 and 2 the step's log has six answers, or the step is 3 or 4. On steps 3 and 4 the move starts the stories or PRD generator. |
| Wizard.NextExtendsAdvance | src/App.tsx:3815-3820 | Wherever Ctrl+Enter moves, the next button does the same. The two differ exactly on an idle step 3 without a plan or an idle step 4 without stories. |
| Wizard.NextAfterFailedPlan | src/App.tsx:1335-1381 | After a failed real-mode plan call, Ctrl+Enter does nothing, but the next button moves to step 4 with an empty plan and a stories call pending. |
| Wizard.EditKey | src/App.tsx:4131-4134 | Typing a key sets it and nothing else. Real mode then holds exactly when it is switched on and the key is not empty. |
| Wizard.TestKey | src/App.tsx:202-211 | A blank key changes nothing. Otherwise the test sets `busy`, whatever it was before, and nothing else changes. |
| Wizard.TestKeyDone | src/App.tsx:213-244 | `busy` is cleared. Real mode is switched on by an ok response and never switched off. Nothing else changes. |
| Wizard.KeyTestRound | src/App.tsx:202-244 | From an idle wizard with a key entered, a whole key test only adds an ok result to the mode switch. Real mode holds afterwards exactly when it held before or the test succeeded. |
| Wizard.KeyTestEndsPendingCall | src/App.tsx:4135 | A key test started while a call is pending ends with the wizard idle, so restart acts again. Nothing else changes except the mode switch. |
| Wizard.BusyBlocksActions | src/App.tsx:90 | While busy, advancing, the problem submit, both answer submits, modification requests and restarting all leave the state unchanged. |
| Wizard.BackWhileBusy | src/App.tsx:3339-3351 | While busy, going back changes the state exactly on steps 1 and 2 with fewer than six answers, where a back button is shown regardless of `isProcessing`. |
| Wizard.BackDuringFirstQuestion | src/App.tsx:435-496 | Going back while the first question is pending still lets the question open the basic log. The wizard ends idle on step 0, in the same state as going back after the question arrived. |
| Wizard.GoBackKeepsStepData | src/App.tsx:3047-3049 | Going back keeps both logs, all artifacts, the summaries, the modification history and `busy`. |
| Wizard.BackThenForwardRegenerates | src/App.tsx:1203-1210 | Going back from step 3 or 4 and then forward returns to the same step, with its artifact and modification state cleared and a generation in flight. |
| Wizard.FailedPlanLeavesStepCleared | src/App.tsx:1335-1381 | After entering step 3 in real mode, a failed plan call leaves the plan and its summary empty. Only `busy` and the enrichment change. |
| Wizard.FailedStoriesLeaveStepCleared | src/App.tsx:1561-1571 | After entering step 4 in real mode, a failed stories call leaves the stories empty, and only `busy` changes. |
| Wizard.FailedPrdLeavesStepCleared | src/App.tsx:2521-2575 | After entering step 5 in real mode, a failed PRD call leaves the PRD and its summary empty, and only `busy` changes. |
| Wizard.FailedQuestionKeepsAnswer | src/App.tsx:520-654 | In real mode, when the next-question call fails, the log keeps the new answer and nothing follows it. |
| Wizard.RestartKeepsDesignLogAndSummaries | src/App.tsx:3966-3976 | Restart keeps the design log, all three summaries, the design enrichment and the mode. |
| Wizard.MockAnswerTurn | src/App.tsx:656-667 | A mock answer to canned question `k` adds exactly that pair and raises the count to `k + 1`. Before the sixth answer, canned question `k + 1` is awaited next. |
| Wizard.MockInterview | src/App.tsx:500-667 | After a problem and up to six non-blank answers in mock mode, the count equals the number of answers, and the pairing is the canned questions matched with the answers, in order. Until the sixth answer, the next canned question is awaited. The gate opens exactly at the sixth answer. |

## Left out

- Network, HTTP and `fetch` are out of scope. A response is a parameter: absent for a rejected fetch, otherwise a status and an optional body.
- Byte decoding is out of scope. The body arrives as already-decoded text chunks, so `TextDecoder` and its handling of multi-byte characters are not modelled.
- JSON parsing is out of scope. The path lookup `candidates[0].content.parts[0].text` is a function parameter (`Extractor`), because its behaviour is that of the JSON library.
- Reader errors in the middle of a stream are not modelled. In the code they fall into the same catch that returns `null`.
- The key dialog's visibility, its alerts and its console logging are UI only. The key field, the key test and their effect on `busy` and the mode are modelled (`Wizard.EditKey`, `Wizard.TestKey`, `Wizard.TestKeyDone`).
- Prompt texts, canned questions, mock documents and status messages are template content. The model takes them as data (`Wizard.Canned`) and does not reproduce their wording. The mock PRD is a template over the problem, plan, stories and date, so it is a function in `Wizard.Canned`. The date comes from the clock and is a parameter of `Wizard.GenerateFinalPrdDone`. The hint field of mock questions is not modelled.
- Timers (`setTimeout`) and React effects are not modelled. A handler whose mock reply is delayed is one atomic update, and the real-mode answer submits are atomic with the reply as a parameter.
- The progress bar's value is not modelled in the wizard. Its callbacks rescale the decoder's estimate, and the decoder's own estimate is modelled.
- Summary and story rendering (paragraph splitting, regex title extraction) is display logic.
- Copy to clipboard, download, and focus and scroll handling are UI only.
- The `userInput` and `detailedUserInput` fields and their clearing are not modelled. The input is a parameter of the submit functions.
- The rendering of the pairs into prompt text (`Q:`/`A:` lines, pairs separated by a blank line) is not modelled. The model stops at the list of pairs, and the text around it is prompt content.
- The `enrichDesignWithAI` prompt construction is not modelled; only its effect on the stored enrichment is.
- `vite.config.ts` is build configuration and is not part of this model.
- Wizard.Restart: it is modelled as available at any step while idle. In the UI the button appears only on step 5.
- Wizard.ChatSubmit: the answer submits are one atomic update. In real mode the step-1 and step-2 back button stays usable while the next question is pending, so the reply can land after the wizard went back. Only going back can run in between: it changes only the step, and the reply changes only the log and `busy`. The outcome is the atomic update followed by going back, but the interleaving itself is not stated as a lemma. The API key dialog can also act in between (`Wizard.KeyTestEndsPendingCall`), and that interleaving is not modelled either.
- Wizard.RequestModification: the real-mode handlers await the call in between setting and clearing `isProcessing` (`src/App.tsx:2953`, `2987`, `3021`). The model is one atomic update with the reply as a parameter. While the call is pending on step 3, 4 or 5, the wizard's own controls are disabled or hidden. The API key dialog is not: it can change the key and the mode, and a key test can clear `busy` before the reply arrives. Those interleavings are not modelled.
- Wizard.GenerateIterationPlanDone: the code fixes the mode branch, and the key used for the enrichment, when `generateIterationPlan` starts. The model reads them when the continuation runs. The two differ only if the key dialog changes the key or the mode while the call is pending.
- Wizard.GenerateUserStoriesDone: the mode is read when the continuation runs, not when `generateUserStories` starts. The two differ only if the key dialog changes it while the call is pending.
- Wizard.GenerateFinalPrdDone: the mode is read when the continuation runs, not when `generateFinalPRD` starts. The two differ only if the key dialog changes it while the call is pending.
- StreamDecoder.Progress: `fullText.length` counts UTF-16 code units and the estimate is computed in floating point. The model counts characters and uses exact real arithmetic, so for text outside the Basic Multilingual Plane, and at rounding boundaries, the reported value can differ.
- StreamDecoder.Call: the `alert` shown for a missing key and for a failed call, and the `console.error` log (`src/App.tsx:253`, `336-337`), are user-interface effects and are dropped. The error result itself is modelled. The `alert` for a blank problem (`src/App.tsx:437`) is dropped from `Wizard.SubmitProblem` for the same reason.
