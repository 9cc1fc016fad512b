/**
 * The six-step wizard of the PRD generator as a state machine over one
 * immutable record.
 *
 * The problem submit and the three document generators are split at
 * their first `await`: the function named after the handler is the
 * synchronous part (it moves to its step and, where a call follows, sets
 * `busy`; a generator also clears its step's artifacts), and the function ending in `Done` is the continuation
 * that runs once the generation calls have returned, with their outcomes
 * as parameters (`None` for a call that returned `null`). The two answer
 * submits and the modification requests are each one atomic update that
 * takes the reply as a parameter, and so is every handler whose mock-mode
 * reply is delayed by a timer. While `busy` is set the page disables or
 * hides the wizard's own controls, with two exceptions: the back button
 * of steps 1 and 2 (see `BackWhileBusy`), which changes only the step,
 * and the API key dialog, which can change the key and the mode and clear
 * `busy` (see `EditKey` and `KeyTestEndsPendingCall`). A continuation
 * reads the mode when it runs, whereas the handler fixes its branch when
 * it starts; the two agree unless the key dialog is used during the call.
 */
module Wizard {
  import opened Base
  import opened JsText
  import opened ChatLog

  /** 0 problem, 1 basic questions, 2 design questions, 3 iteration plan, 4 user stories, 5 final PRD. */
  type Step = n: nat | n <= 5

  /**
   * The fixed texts the application shows: its status messages and
   * everything mock mode uses in place of a generated reply. Their wording
   * is configuration, so the model takes them as data.
   */
  datatype Canned = Canned(
    basicIntro: string,            // shown before the first basic question
    basicQuestions: seq<string>,   // `generateQuestions()`
    basicClosing: string,          // shown after the sixth basic answer
    detailedIntro: string,         // shown before the first design question
    detailedQuestions: seq<string>, // `generateDetailedQuestions()`
    detailedClosing: string,       // shown after the sixth design answer
    mockBasicSummary: string,
    mockPlan: string,
    mockPlanSummary: string,
    mockStories: string,
    mockPrd: (string, string, string, string) -> string,
                                   // mock PRD from the problem, plan, stories and date
    mockPrdSummary: string,
    modificationDone: string,      // acknowledgement of an applied modification
    modificationMock: string)      // mock-mode reply to a modification request

  /** The component's session state (its `useState` variables that carry logic). */
  datatype State = State(
    step: Step,
    problem: string,               // `problemDescription`
    chat: seq<ChatMessage>,        // `chatMessages`, step 1
    detailedChat: seq<ChatMessage>, // `detailedChatMessages`, step 2
    plan: string,                  // `iterationPlan`
    stories: string,               // `userStories`
    prd: string,                   // `finalPRD`
    basicSummary: string,          // `basicInfoSummary`
    planSummary: string,           // `iterationSummary`
    prdSummary: string,            // `prdSummary`
    enrichedDesign: string,        // `enrichedDesignSystem`
    modHistory: seq<ChatMessage>,  // `modificationHistory`
    modRequest: string,            // `modificationRequest`
    busy: bool,                    // `isProcessing`
    useRealAI: bool,
    apiKey: string)                // `geminiApiKey`

  /** `useRealAI && geminiApiKey`: generation goes to the real endpoint. */
  predicate RealMode(s: State) {
    s.useRealAI && s.apiKey != ""
  }

  /** The final PRD as stored: the generated text inside a markdown code fence. */
  function Fence(text: string): string {
    "```markdown\n" + text + "\n```"
  }

  /** The opening of a collection step's log: the intro message, then question 0. */
  function Opening(intro: string, question: string): (log: seq<ChatMessage>)
    ensures AwaitingAnswer(log) && UserAnswerCount(log) == 0 && PairQA(log) == []
    ensures Last(log) == QuestionMessage(question, 0)
  {
    var log := [InfoMessage(intro), QuestionMessage(question, 0)];
    assert Init(log) == [InfoMessage(intro)];
    assert Init(Init(log)) == [];
    assert FirstUserFrom(log, 2) == None;
    assert FirstUserFrom(log, 1) == None;
    assert FirstUserFrom(log, 0) == None;
    NoUserNoPairs(log, 0);
    log
  }

  // ---------------------------------------------------------------- step 0 -> 1

  /**
   * `handleProblemSubmit` up to its first `await`: while busy (the button
   * is disabled) or for a blank problem statement nothing changes;
   * otherwise the wizard moves to step 1. In
   * mock mode the log is replaced by the intro and the first canned
   * question; in real mode the first question is requested and `busy` is set.
   */
  function SubmitProblem(s: State, c: Canned): (t: State)
    ensures s.busy || Blank(s.problem) ==> t == s
    ensures !s.busy && !Blank(s.problem) ==> t.step == 1 && t.(step := s.step, busy := s.busy, chat := s.chat) == s
    ensures !s.busy && !Blank(s.problem) && RealMode(s) ==> t.busy && t.chat == s.chat
    ensures !s.busy && !Blank(s.problem) && !RealMode(s) ==> !t.busy
    ensures !s.busy && !Blank(s.problem) && !RealMode(s) && |c.basicQuestions| > 0 ==>
              AwaitingAnswer(t.chat) && Last(t.chat) == QuestionMessage(c.basicQuestions[0], 0)
  {
    if s.busy || Blank(s.problem) then s
    else if RealMode(s) then s.(step := 1, busy := true)
    else
      var chat := if |c.basicQuestions| > 0 then Opening(c.basicIntro, c.basicQuestions[0]) else s.chat;
      s.(step := 1, chat := chat)
  }

  /** The rest of `handleProblemSubmit` in real mode: a question that came back opens the log. */
  function SubmitProblemDone(s: State, c: Canned, question: Option<string>): (t: State)
    ensures !t.busy
    ensures t == s.(busy := false, chat := t.chat)
    ensures Truthy(question) ==>
              && AwaitingAnswer(t.chat) && Last(t.chat) == QuestionMessage(Trim(question.value), 0)
              && UserAnswerCount(t.chat) == 0 && PairQA(t.chat) == []
    ensures !Truthy(question) ==> t == s.(busy := false)
  {
    s.(busy := false, chat := if Truthy(question) then Opening(c.basicIntro, Trim(question.value)) else s.chat)
  }

  // ---------------------------------------------------------------- steps 1 and 2: answers

  /**
   * `handleChatSubmit`: while busy (the input is disabled) or for blank
   * input nothing happens; otherwise the untrimmed input is appended as one
   * user answer and the reply follows it (see `Respond`).
   */
  function ChatSubmit(s: State, c: Canned, input: string, reply: Option<string>): (t: State)
    ensures s.busy || Blank(input) ==> t == s
    ensures !s.busy && !Blank(input) ==>
              && t == s.(chat := t.chat)
              && |t.chat| > |s.chat|
              && t.chat[..|s.chat|] == s.chat && t.chat[|s.chat|] == UserMessage(input)
              && UserAnswerCount(t.chat) == UserAnswerCount(s.chat) + 1
  {
    if s.busy || Blank(input) then s
    else s.(chat := Respond(s.chat, input, RealMode(s), c.basicQuestions, c.basicClosing, reply))
  }

  /**
   * `handleDetailedChatSubmit`: the same for step 2, except that the
   * stored answer is the trimmed input.
   */
  function DetailedChatSubmit(s: State, c: Canned, input: string, reply: Option<string>): (t: State)
    ensures s.busy || Blank(input) ==> t == s
    ensures !s.busy && !Blank(input) ==>
              && t == s.(detailedChat := t.detailedChat)
              && |t.detailedChat| > |s.detailedChat|
              && t.detailedChat[..|s.detailedChat|] == s.detailedChat
              && t.detailedChat[|s.detailedChat|] == UserMessage(Trim(input))
              && UserAnswerCount(t.detailedChat) == UserAnswerCount(s.detailedChat) + 1
  {
    if s.busy || Blank(input) then s
    else s.(detailedChat := Respond(s.detailedChat, Trim(input), RealMode(s), c.detailedQuestions, c.detailedClosing, reply))
  }

  // ---------------------------------------------------------------- step 1 -> 2

  /**
   * `generateDetailedInfo` up to its first `await`: `busy` is set and the
   * wizard moves to step 2. Mock mode finishes at once: the canned summary
   * is stored, `busy` is cleared and the design log is replaced by its
   * intro and first canned question.
   */
  function GenerateDetailedInfo(s: State, c: Canned): (t: State)
    ensures t.step == 2
    ensures RealMode(s) ==> t == s.(step := 2, busy := true)
    ensures !RealMode(s) ==>
              && !t.busy && t.basicSummary == c.mockBasicSummary
              && t.(step := s.step, busy := s.busy, basicSummary := s.basicSummary, detailedChat := s.detailedChat) == s
              && (|c.detailedQuestions| > 0 ==>
                    AwaitingAnswer(t.detailedChat) && Last(t.detailedChat) == QuestionMessage(c.detailedQuestions[0], 0))
  {
    var t := s.(busy := true, step := 2);
    if RealMode(s) then t
    else
      var log := if |c.detailedQuestions| > 0 then Opening(c.detailedIntro, c.detailedQuestions[0]) else s.detailedChat;
      t.(basicSummary := c.mockBasicSummary, busy := false, detailedChat := log)
  }

  /** The rest of `generateDetailedInfo` in real mode: the trimmed summary and the first design question, where they came back. */
  function GenerateDetailedInfoDone(s: State, c: Canned, summary: Option<string>, question: Option<string>): (t: State)
    ensures !t.busy
    ensures t.basicSummary == if Truthy(summary) then Trim(summary.value) else s.basicSummary
    ensures Truthy(question) ==>
              && AwaitingAnswer(t.detailedChat) && Last(t.detailedChat) == QuestionMessage(Trim(question.value), 0)
              && UserAnswerCount(t.detailedChat) == 0 && PairQA(t.detailedChat) == []
    ensures !Truthy(question) ==> t.detailedChat == s.detailedChat
    ensures t == s.(busy := t.busy, basicSummary := t.basicSummary, detailedChat := t.detailedChat)
  {
    s.(basicSummary := if Truthy(summary) then Trim(summary.value) else s.basicSummary,
       busy := false,
       detailedChat := if Truthy(question) then Opening(c.detailedIntro, Trim(question.value)) else s.detailedChat)
  }

  // ---------------------------------------------------------------- steps 3, 4, 5: entries

  /**
   * `generateIterationPlan` up to its first `await`: `busy` is set, the
   * plan and its summary are cleared, the wizard moves to step 3, and the
   * modification history and request are cleared.
   */
  function GenerateIterationPlan(s: State): (t: State)
    ensures t.step == 3 && t.busy
    ensures t.plan == "" && t.planSummary == "" && t.modHistory == [] && t.modRequest == ""
    ensures t.(step := s.step, busy := s.busy, plan := s.plan, planSummary := s.planSummary,
               modHistory := s.modHistory, modRequest := s.modRequest) == s
  {
    s.(busy := true, plan := "", planSummary := "", step := 3, modHistory := [], modRequest := "")
  }

  /**
   * The rest of `generateIterationPlan`. The design enrichment is stored
   * when a key exists and the call produced text (without a key the call
   * fails before sending anything, whatever the mode). Real mode stores
   * the plan when it came back, and its summary only then; mock mode stores
   * the canned plan and summary. `busy` is cleared either way.
   */
  function GenerateIterationPlanDone(s: State, c: Canned, enriched: Option<string>,
                                     plan: Option<string>, summary: Option<string>): (t: State)
    ensures !t.busy
    ensures t.enrichedDesign == if s.apiKey != "" && Truthy(enriched) then enriched.value else s.enrichedDesign
    ensures RealMode(s) && !Truthy(plan) ==> t.plan == s.plan && t.planSummary == s.planSummary
    ensures RealMode(s) && Truthy(plan) ==> t.plan == plan.value && t.planSummary == if Truthy(summary) then summary.value else s.planSummary
    ensures !RealMode(s) ==> t.plan == c.mockPlan && t.planSummary == c.mockPlanSummary
    ensures t == s.(busy := t.busy, enrichedDesign := t.enrichedDesign, plan := t.plan, planSummary := t.planSummary)
  {
    var e := if s.apiKey != "" && Truthy(enriched) then enriched.value else s.enrichedDesign;
    var u := s.(enrichedDesign := e, busy := false);
    if RealMode(s) then
      if Truthy(plan) then
        u.(plan := plan.value, planSummary := if Truthy(summary) then summary.value else s.planSummary)
      else u
    else u.(plan := c.mockPlan, planSummary := c.mockPlanSummary)
  }

  /**
   * `generateUserStories` up to its first `await`: `busy` is set, the
   * stories are cleared, the wizard moves to step 4, and the modification
   * history and request are cleared.
   */
  function GenerateUserStories(s: State): (t: State)
    ensures t.step == 4 && t.busy
    ensures t.stories == "" && t.modHistory == [] && t.modRequest == ""
    ensures t.(step := s.step, busy := s.busy, stories := s.stories,
               modHistory := s.modHistory, modRequest := s.modRequest) == s
  {
    s.(busy := true, stories := "", step := 4, modHistory := [], modRequest := "")
  }

  /** The rest of `generateUserStories`: the stories that came back (real) or the canned ones (mock). */
  function GenerateUserStoriesDone(s: State, c: Canned, stories: Option<string>): (t: State)
    ensures !t.busy
    ensures RealMode(s) ==> t.stories == if Truthy(stories) then stories.value else s.stories
    ensures !RealMode(s) ==> t.stories == c.mockStories
    ensures t == s.(busy := t.busy, stories := t.stories)
  {
    if RealMode(s) then
      s.(busy := false, stories := if Truthy(stories) then stories.value else s.stories)
    else s.(stories := c.mockStories, busy := false)
  }

  /**
   * `generateFinalPRD` up to its first `await`: `busy` is set, the PRD and
   * its summary are cleared, the wizard moves to step 5, and the
   * modification history and request are cleared.
   */
  function GenerateFinalPrd(s: State): (t: State)
    ensures t.step == 5 && t.busy
    ensures t.prd == "" && t.prdSummary == "" && t.modHistory == [] && t.modRequest == ""
    ensures t.(step := s.step, busy := s.busy, prd := s.prd, prdSummary := s.prdSummary,
               modHistory := s.modHistory, modRequest := s.modRequest) == s
  {
    s.(busy := true, prd := "", prdSummary := "", step := 5, modHistory := [], modRequest := "")
  }

  /**
   * The rest of `generateFinalPRD`: real mode stores the fenced PRD when it
   * came back, and its summary only then; mock mode fills the PRD template
   * with the problem statement, plan and stories and the date `today` (the
   * clock is a parameter), and stores the canned summary.
   */
  function GenerateFinalPrdDone(s: State, c: Canned, prd: Option<string>, summary: Option<string>,
                                today: string): (t: State)
    ensures !t.busy
    ensures RealMode(s) && !Truthy(prd) ==> t.prd == s.prd && t.prdSummary == s.prdSummary
    ensures RealMode(s) && Truthy(prd) ==> t.prd == Fence(prd.value) && t.prdSummary == if Truthy(summary) then summary.value else s.prdSummary
    ensures !RealMode(s) ==> t.prd == c.mockPrd(s.problem, s.plan, s.stories, today) && t.prdSummary == c.mockPrdSummary
    ensures t == s.(busy := t.busy, prd := t.prd, prdSummary := t.prdSummary)
  {
    if RealMode(s) then
      if Truthy(prd) then
        s.(prd := Fence(prd.value), prdSummary := if Truthy(summary) then summary.value else s.prdSummary, busy := false)
      else s.(busy := false)
    else s.(prd := c.mockPrd(s.problem, s.plan, s.stories, today), prdSummary := c.mockPrdSummary, busy := false)
  }

  // ---------------------------------------------------------------- modifications

  /**
   * `handleIterationPlanModification`, `handleUserStoryModification` and
   * `handlePRDModification`, chosen by the step that shows them. While busy
   * (the button is disabled), for a blank request, or before step 3 nothing
   * happens. Otherwise the request joins the history and is cleared; in
   * real mode a reply that came back replaces the step's artifact (fenced
   * for the PRD) and is acknowledged, a failed call adds nothing more, and
   * in mock mode the fixed mock reply is appended. The artifacts of the
   * other steps, the logs, the summaries and the mode are never touched.
   */
  function RequestModification(s: State, c: Canned, reply: Option<string>): (t: State)
    ensures s.busy || Blank(s.modRequest) || s.step < 3 ==> t == s
    ensures !s.busy && !Blank(s.modRequest) && s.step >= 3 ==>
              && t == s.(modRequest := "", modHistory := t.modHistory, plan := t.plan, stories := t.stories, prd := t.prd)
              && (s.step != 3 ==> t.plan == s.plan)
              && (s.step != 4 ==> t.stories == s.stories)
              && (s.step != 5 ==> t.prd == s.prd)
              && (RealMode(s) && Truthy(reply) ==>
                    && t.modHistory == s.modHistory + [UserMessage(s.modRequest)] + [InfoMessage(c.modificationDone)]
                    && Artifact(t, s.step) == if s.step == 5 then Fence(reply.value) else reply.value)
              && (RealMode(s) && !Truthy(reply) ==>
                    t.modHistory == s.modHistory + [UserMessage(s.modRequest)] && Artifact(t, s.step) == Artifact(s, s.step))
              && (!RealMode(s) ==>
                    && t.modHistory == s.modHistory + [UserMessage(s.modRequest)] + [InfoMessage(c.modificationMock)]
                    && Artifact(t, s.step) == Artifact(s, s.step))
  {
    if s.busy || Blank(s.modRequest) || s.step < 3 then s
    else
      var history := s.modHistory + [UserMessage(s.modRequest)];
      var u := s.(modRequest := "", busy := false);
      if RealMode(s) then
        if Truthy(reply) then
          var v :=
            if s.step == 3 then u.(plan := reply.value)
            else if s.step == 4 then u.(stories := reply.value)
            else u.(prd := Fence(reply.value));
          v.(modHistory := history + [InfoMessage(c.modificationDone)])
        else u.(modHistory := history)
      else u.(modHistory := history + [InfoMessage(c.modificationMock)])
  }

  // ---------------------------------------------------------------- navigation

  /**
   * Whether the page shows a back button. Steps 1 and 2 show one while
   * fewer than six answers are in, whether or not a call is pending, and
   * another once six are in and the wizard is idle; steps 3 and 4 show one
   * while idle; steps 0 and 5 have none.
   */
  predicate BackOffered(s: State) {
    || ((s.step == 1 || s.step == 2) && (!QuotaMet(GateLog(s)) || !s.busy))
    || ((s.step == 3 || s.step == 4) && !s.busy)
  }

  /** `goBack`, pressed where the page offers it: one step back; nothing else changes. */
  function GoBack(s: State): (t: State)
    ensures BackOffered(s) ==> t.step + 1 == s.step
    ensures !BackOffered(s) ==> t == s
    ensures t.(step := s.step) == s
  {
    if BackOffered(s) then s.(step := s.step - 1) else s
  }

  /**
   * The "restart" button: back to step 0 with an empty problem, basic log,
   * plan, stories, PRD and modification history and request. The design
   * log, the summaries, the design enrichment and the mode are kept. The
   * button is only shown while the wizard is idle, so while busy nothing
   * happens.
   */
  function Restart(s: State): (t: State)
    ensures s.busy ==> t == s
    ensures !s.busy ==> t.step == 0 && t.problem == "" && t.chat == []
    ensures !s.busy ==> t.plan == "" && t.stories == "" && t.prd == "" && t.modHistory == [] && t.modRequest == ""
    ensures t.(step := s.step, problem := s.problem, chat := s.chat, plan := s.plan, stories := s.stories,
               prd := s.prd, modHistory := s.modHistory, modRequest := s.modRequest) == s
  {
    if s.busy then s
    else s.(step := 0, problem := "", chat := [], plan := "", stories := "", prd := "",
       modHistory := [], modRequest := "")
  }

  // ---------------------------------------------------------------- the API key dialog

  /**
   * Typing into the key field of the settings dialog. The header button
   * that opens the dialog is always shown, so this works at any time, a
   * pending call included.
   */
  function EditKey(s: State, key: string): (t: State)
    ensures t.apiKey == key
    ensures RealMode(t) <==> s.useRealAI && key != ""
    ensures t.(apiKey := s.apiKey) == s
  {
    s.(apiKey := key)
  }

  /**
   * Pressing Enter in the key field starts `testGeminiAPI`: a blank key is
   * refused; otherwise `busy` is set while the test call runs. Unlike the
   * dialog's connect button, the Enter key does not check `busy`.
   */
  function TestKey(s: State): (t: State)
    ensures Blank(s.apiKey) ==> t == s
    ensures !Blank(s.apiKey) ==> t.busy
    ensures t.(busy := s.busy) == s
  {
    if Blank(s.apiKey) then s else s.(busy := true)
  }

  /**
   * The rest of `testGeminiAPI`: an ok test response switches real mode
   * on (nothing switches it off), and in every outcome `busy` is cleared.
   */
  function TestKeyDone(s: State, ok: bool): (t: State)
    ensures !t.busy
    ensures t.useRealAI <==> s.useRealAI || ok
    ensures t.(busy := s.busy, useRealAI := s.useRealAI) == s
  {
    s.(useRealAI := s.useRealAI || ok, busy := false)
  }

  /**
   * Ctrl+Enter: nothing while busy; from step 0 with a problem statement,
   * from steps 1 and 2 once six answers are in, and from steps 3 and 4 once
   * their artifact exists, the next step's generator starts. The "next"
   * buttons are `Next`, which does not check the artifact.
   */
  function Advance(s: State, c: Canned): (t: State)
    ensures t.step == s.step || t.step == s.step + 1
    ensures t.step == s.step ==> t == s
    ensures t.step == s.step + 1 <==>
              !s.busy &&
              (|| (s.step == 0 && !Blank(s.problem))
               || ((s.step == 1 || s.step == 2) && QuotaMet(GateLog(s)))
               || (s.step == 3 && s.plan != "")
               || (s.step == 4 && s.stories != ""))
    ensures t.step == s.step + 1 && s.step == 0 ==> t == SubmitProblem(s, c)
    ensures t.step == s.step + 1 && s.step == 1 ==> t == GenerateDetailedInfo(s, c)
    ensures t.step == s.step + 1 && s.step == 2 ==> t == GenerateIterationPlan(s)
    ensures t.step == s.step + 1 && s.step == 3 ==> t == GenerateUserStories(s)
    ensures t.step == s.step + 1 && s.step == 4 ==> t == GenerateFinalPrd(s)
  {
    if s.busy then s
    else if s.step == 0 then (if Blank(s.problem) then s else SubmitProblem(s, c))
    else if s.step == 1 then (if QuotaMet(s.chat) then GenerateDetailedInfo(s, c) else s)
    else if s.step == 2 then (if QuotaMet(s.detailedChat) then GenerateIterationPlan(s) else s)
    else if s.step == 3 then (if s.plan != "" then GenerateUserStories(s) else s)
    else if s.step == 4 then (if s.stories != "" then GenerateFinalPrd(s) else s)
    else s
  }

  /**
   * The "next" buttons. Step 0's submit button and the next buttons of
   * steps 1 and 2 are disabled or hidden under the same conditions as
   * Ctrl+Enter. The next buttons of steps 3 and 4 are shown whenever the
   * wizard is idle and start the next generator whether or not the step's
   * artifact exists. Step 5 has none.
   */
  function Next(s: State, c: Canned): (t: State)
    ensures t.step == s.step || t.step == s.step + 1
    ensures t.step == s.step ==> t == s
    ensures t.step == s.step + 1 <==>
              !s.busy &&
              (|| (s.step == 0 && !Blank(s.problem))
               || ((s.step == 1 || s.step == 2) && QuotaMet(GateLog(s)))
               || s.step == 3 || s.step == 4)
    ensures t.step == s.step + 1 && s.step == 3 ==> t == GenerateUserStories(s)
    ensures t.step == s.step + 1 && s.step == 4 ==> t == GenerateFinalPrd(s)
  {
    if s.busy then s
    else if s.step == 3 then GenerateUserStories(s)
    else if s.step == 4 then GenerateFinalPrd(s)
    else Advance(s, c)
  }

  /** The log whose answers gate leaving collection step `step`. */
  function GateLog(s: State): seq<ChatMessage> {
    if s.step == 1 then s.chat else s.detailedChat
  }

  // ---------------------------------------------------------------- properties

  /**
   * The quota gate: from step 1 or 2 the wizard moves forward exactly when
   * it is idle and the step's log holds at least six user answers;
   * otherwise nothing changes.
   */
  lemma QuotaGate(s: State, c: Canned)
    requires s.step == 1 || s.step == 2
    ensures Advance(s, c).step == s.step + 1 <==> !s.busy && QuotaMet(GateLog(s))
    ensures !(!s.busy && QuotaMet(GateLog(s))) ==> Advance(s, c) == s
  {
  }

  /** Informational `ai` messages, wherever they sit in the log, neither open nor close the gate. */
  lemma GateIgnoresAiMessages(log: seq<ChatMessage>, i: nat, m: ChatMessage)
    requires i <= |log|
    requires m.sender == Ai
    ensures QuotaMet(log[..i] + [m] + log[i..]) <==> QuotaMet(log)
  {
    AiMessageUncounted(log, i, m);
  }

  /** Single flight: while busy, every submit, advance, modify and restart action leaves the state unchanged. */
  lemma BusyBlocksActions(s: State, c: Canned, input: string, reply: Option<string>)
    requires s.busy
    ensures Advance(s, c) == s
    ensures SubmitProblem(s, c) == s
    ensures Restart(s) == s
    ensures ChatSubmit(s, c, input, reply) == s
    ensures DetailedChatSubmit(s, c, input, reply) == s
    ensures RequestModification(s, c, reply) == s
  {
  }

  /**
   * A key test from an idle wizard with a key entered: afterwards the
   * wizard is idle again and in real mode exactly when it was before or
   * the test succeeded; nothing else changes.
   */
  lemma KeyTestRound(s: State, ok: bool)
    requires !s.busy && !Blank(s.apiKey)
    ensures
      var t := TestKeyDone(TestKey(s), ok);
      && t == s.(useRealAI := s.useRealAI || ok)
      && (RealMode(t) <==> RealMode(s) || ok)
  {
  }

  /**
   * A key test does not respect a pending call: started with Enter while a
   * generation or modification call is in flight, its completion clears
   * `busy`, and the controls that `busy` blocked act again, restart among
   * them, before the pending call has returned.
   */
  lemma KeyTestEndsPendingCall(s: State, ok: bool)
    requires s.busy && !Blank(s.apiKey)
    ensures
      var t := TestKeyDone(TestKey(s), ok);
      && !t.busy && Restart(t).step == 0
      && t == s.(busy := false, useRealAI := s.useRealAI || ok)
  {
  }

  /**
   * The buttons and the shortcut differ only on a step whose artifact is
   * missing: wherever Ctrl+Enter moves, the button does the same, and the
   * button moves where the shortcut does not exactly on an idle step 3
   * without a plan or an idle step 4 without stories.
   */
  lemma NextExtendsAdvance(s: State, c: Canned)
    ensures Advance(s, c) != s ==> Next(s, c) == Advance(s, c)
    ensures Next(s, c) != Advance(s, c) <==>
              !s.busy && ((s.step == 3 && s.plan == "") || (s.step == 4 && s.stories == ""))
  {
    if !s.busy && ((s.step == 3 && s.plan == "") || (s.step == 4 && s.stories == "")) {
      assert Next(s, c).step != s.step;
    }
  }

  /**
   * So a failed plan call does not stop the wizard: the next button of
   * step 3 still moves on to step 4 with an empty plan and starts the
   * stories call, while Ctrl+Enter stays put.
   */
  lemma NextAfterFailedPlan(s: State, c: Canned, enriched: Option<string>, summary: Option<string>)
    requires RealMode(s)
    ensures
      var failed := GenerateIterationPlanDone(GenerateIterationPlan(s), c, enriched, None, summary);
      var t := Next(failed, c);
      && Advance(failed, c) == failed
      && t.step == 4 && t.busy && t.plan == "" && t.stories == ""
  {
    FailedPlanLeavesStepCleared(s, c, enriched, summary);
  }

  /**
   * The one action a pending call does not block: going back from step 1
   * or 2, which is possible exactly while fewer than six answers are in.
   */
  lemma BackWhileBusy(s: State)
    requires s.busy
    ensures GoBack(s) != s <==> (s.step == 1 || s.step == 2) && !QuotaMet(GateLog(s))
  {
    if (s.step == 1 || s.step == 2) && !QuotaMet(GateLog(s)) {
      assert GoBack(s).step != s.step;
    }
  }

  /**
   * Going back while the first question is still being generated: the
   * question still opens the basic log when it arrives, and the wizard is
   * left idle on step 0, as if the user had gone back after it arrived.
   */
  lemma BackDuringFirstQuestion(s: State, c: Canned, question: Option<string>)
    requires RealMode(s) && !s.busy && !Blank(s.problem) && !QuotaMet(s.chat)
    ensures
      var pending := SubmitProblem(s, c);
      var t := SubmitProblemDone(GoBack(pending), c, question);
      && pending.busy && t.step == 0 && !t.busy
      && t == SubmitProblemDone(pending, c, question).(step := 0)
  {
    var pending := SubmitProblem(s, c);
    assert GateLog(pending) == s.chat;
    assert BackOffered(pending);
  }

  /**
   * Going back does not clear anything: the logs, artifacts, summaries and
   * modification history of the step that was left are all still there.
   */
  lemma GoBackKeepsStepData(s: State)
    ensures var t := GoBack(s);
      && t.chat == s.chat && t.detailedChat == s.detailedChat
      && t.plan == s.plan && t.stories == s.stories && t.prd == s.prd
      && t.basicSummary == s.basicSummary && t.planSummary == s.planSummary && t.prdSummary == s.prdSummary
      && t.modHistory == s.modHistory && t.busy == s.busy
  {
  }

  /** The artifact step `n` (3, 4 or 5) produces. */
  function Artifact(s: State, n: Step): string
    requires n >= 3
  {
    if n == 3 then s.plan else if n == 4 then s.stories else s.prd
  }

  /**
   * Data of generation steps is discarded on re-entry instead: going back
   * from step 3 or 4 and then forward again returns to the same step with
   * its artifact and the modification history cleared and a new
   * generation in flight.
   */
  lemma BackThenForwardRegenerates(s: State, c: Canned)
    requires 3 <= s.step <= 4 && !s.busy
    requires s.step == 3 ==> QuotaMet(s.detailedChat)
    requires s.step == 4 ==> s.plan != ""
    ensures
      var t := Advance(GoBack(s), c);
      && t.step == s.step && t.busy
      && Artifact(t, s.step) == "" && t.modHistory == [] && t.modRequest == ""
  {
    var b := GoBack(s);
    assert b.step == s.step - 1 && !b.busy;
  }

  /**
   * A failed call leaves the step as its entry left it: after entering
   * step 4 in real mode, a stories call that returned `null` leaves the
   * stories empty, and only `busy` changes.
   */
  lemma FailedStoriesLeaveStepCleared(s: State, c: Canned)
    requires RealMode(s)
    ensures
      var entered := GenerateUserStories(s);
      var t := GenerateUserStoriesDone(entered, c, None);
      t == entered.(busy := false) && t.stories == "" && t.step == 4
  {
  }

  /**
   * The same for step 3: after a failed plan call, plan and summary stay
   * empty; only the design enrichment (if it came back) and `busy` change.
   */
  lemma FailedPlanLeavesStepCleared(s: State, c: Canned, enriched: Option<string>, summary: Option<string>)
    requires RealMode(s)
    ensures
      var entered := GenerateIterationPlan(s);
      var t := GenerateIterationPlanDone(entered, c, enriched, None, summary);
      && t.plan == "" && t.planSummary == "" && !t.busy && t.step == 3
      && t == entered.(busy := false, enrichedDesign := t.enrichedDesign)
  {
  }

  /** And for step 5: after a failed PRD call, PRD and summary stay empty. */
  lemma FailedPrdLeavesStepCleared(s: State, c: Canned, summary: Option<string>, today: string)
    requires RealMode(s)
    ensures
      var entered := GenerateFinalPrd(s);
      var t := GenerateFinalPrdDone(entered, c, None, summary, today);
      t == entered.(busy := false) && t.prd == "" && t.prdSummary == ""
  {
  }

  /**
   * In real mode a failed question request keeps the answer just given:
   * the log grows by the user message alone, so the answer still counts.
   */
  lemma FailedQuestionKeepsAnswer(s: State, c: Canned, input: string)
    requires RealMode(s) && !s.busy && !Blank(input)
    requires UserAnswerCount(s.chat) + 1 < RequiredAnswers
    ensures ChatSubmit(s, c, input, None).chat == s.chat + [UserMessage(input)]
  {
    var r := ChatSubmit(s, c, input, None).chat;
    assert |r| == |s.chat| + 1;
    assert r == r[..|s.chat|] + [r[|s.chat|]];
  }

  /** Restart keeps the design log and the summaries of the previous session. */
  lemma RestartKeepsDesignLogAndSummaries(s: State)
    ensures var t := Restart(s);
      && t.detailedChat == s.detailedChat
      && t.basicSummary == s.basicSummary && t.planSummary == s.planSummary && t.prdSummary == s.prdSummary
      && t.enrichedDesign == s.enrichedDesign && RealMode(t) == RealMode(s)
  {
  }

  /** One modification request: the text typed into the request box, and the reply its call gets. */
  datatype Edit = Edit(request: string, reply: Option<string>)

  /** Typing `e.request` into the request box, then submitting it. */
  function Modify(s: State, c: Canned, e: Edit): State {
    RequestModification(s.(modRequest := e.request), c, e.reply)
  }

  /** A sequence of modification requests, one after another. */
  function ModifyAll(s: State, c: Canned, edits: seq<Edit>): State {
    if |edits| == 0 then s else Modify(ModifyAll(s, c, Init(edits)), c, Last(edits))
  }

  /** The request texts of `edits`, in order. */
  function RequestTexts(edits: seq<Edit>): (r: seq<string>)
    ensures |r| == |edits|
    ensures forall j | 0 <= j < |edits| :: r[j] == edits[j].request
  {
    seq(|edits|, j requires 0 <= j < |edits| => edits[j].request)
  }

  /**
   * `t` differs from `s` at most in the modification request and history
   * and in the artifact of the step `s` is on, and not even there in mock
   * mode: the step, `busy`, the logs, the other artifacts, the summaries,
   * the enrichment and the mode are those of `s`.
   */
  predicate OnlyModificationChanged(s: State, t: State) {
    && t == s.(modRequest := t.modRequest, modHistory := t.modHistory, plan := t.plan, stories := t.stories, prd := t.prd)
    && (s.step != 3 ==> t.plan == s.plan)
    && (s.step != 4 ==> t.stories == s.stories)
    && (s.step != 5 ==> t.prd == s.prd)
    && (!RealMode(s) && s.step >= 3 ==> Artifact(t, s.step) == Artifact(s, s.step))
  }

  /**
   * A modification session on a generation step: after any number of
   * non-blank requests only the modification state and the step's own
   * artifact may have changed (see `OnlyModificationChanged`), the request
   * box is empty again, and the history's user entries are the earlier
   * ones followed by the requests, in order.
   */
  lemma {:induction false} ModificationSession(s: State, c: Canned, edits: seq<Edit>)
    requires 3 <= s.step && !s.busy
    requires forall j | 0 <= j < |edits| :: !Blank(edits[j].request)
    ensures
      var t := ModifyAll(s, c, edits);
      && OnlyModificationChanged(s, t)
      && (|edits| > 0 ==> t.modRequest == "")
      && UserTexts(t.modHistory) == UserTexts(s.modHistory) + RequestTexts(edits)
  {
    if |edits| == 0 {
      assert RequestTexts(edits) == [];
    } else {
      var front, e := Init(edits), Last(edits);
      assert forall j | 0 <= j < |front| :: !Blank(front[j].request) by {
        assert forall j | 0 <= j < |front| :: front[j] == edits[j];
      }
      ModificationSession(s, c, front);
      var m := ModifyAll(s, c, front);
      var t := Modify(m, c, e);
      assert ModifyAll(s, c, edits) == t;
      ModificationStep(s, m, c, e);
      RequestTextsSnoc(edits);
      Chain(UserTexts(s.modHistory), RequestTexts(front), e.request, UserTexts(m.modHistory), UserTexts(t.modHistory));
    }
  }

  /** The request texts grow by one per request. */
  lemma RequestTextsSnoc(edits: seq<Edit>)
    requires |edits| > 0
    ensures RequestTexts(edits) == RequestTexts(Init(edits)) + [Last(edits).request]
  {
  }

  /** Two appends in a row are one append of the joined suffix. */
  lemma Chain(a: seq<string>, b: seq<string>, x: string, m: seq<string>, t: seq<string>)
    requires m == a + b && t == m + [x]
    ensures t == a + (b + [x])
  {
  }

  /** One more request in a session keeps the session's frame and adds its text to the history. */
  lemma ModificationStep(s: State, m: State, c: Canned, e: Edit)
    requires 3 <= s.step && !s.busy && OnlyModificationChanged(s, m)
    requires !Blank(e.request)
    ensures
      var t := Modify(m, c, e);
      && OnlyModificationChanged(s, t) && t.modRequest == ""
      && UserTexts(t.modHistory) == UserTexts(m.modHistory) + [e.request]
  {
    ModificationTurn(m.(modRequest := e.request), c, e.reply);
  }

  /** The history after one accepted request: the request, then at most one `ai` reply. */
  lemma ModificationTurn(u: State, c: Canned, reply: Option<string>)
    requires 3 <= u.step && !u.busy && !Blank(u.modRequest)
    ensures UserTexts(RequestModification(u, c, reply).modHistory) == UserTexts(u.modHistory) + [u.modRequest]
  {
    var h := u.modHistory + [UserMessage(u.modRequest)];
    if RealMode(u) && Truthy(reply) {
      UserTextsAppendTurn(u.modHistory, u.modRequest, [InfoMessage(c.modificationDone)]);
    } else if RealMode(u) {
      UserTextsAppendTurn(u.modHistory, u.modRequest, []);
      assert h + [] == h;
    } else {
      UserTextsAppendTurn(u.modHistory, u.modRequest, [InfoMessage(c.modificationMock)]);
    }
  }

  /** Answers submitted one after another with no reply needed (mock mode ignores replies). */
  function AnswerAll(s: State, c: Canned, answers: seq<string>): State {
    if |answers| == 0 then s else ChatSubmit(AnswerAll(s, c, Init(answers)), c, Last(answers), None)
  }

  /** The question/answer pairs a mock interview of `n` answers should produce. */
  function ExpectedPairs(questions: seq<string>, answers: seq<string>): (r: seq<QAPair>)
    requires |answers| <= |questions|
    ensures |r| == |answers|
    ensures forall j | 0 <= j < |r| :: r[j] == QAPair(questions[j], answers[j])
  {
    seq(|answers|, j requires 0 <= j < |answers| => QAPair(questions[j], answers[j]))
  }

  /** The expected pairing grows by one pair per answer. */
  lemma ExpectedPairsSnoc(questions: seq<string>, answers: seq<string>)
    requires 0 < |answers| <= |questions|
    ensures ExpectedPairs(questions, answers) ==
              ExpectedPairs(questions, Init(answers)) + [QAPair(questions[|answers| - 1], Last(answers))]
  {
    var r := ExpectedPairs(questions, Init(answers)) + [QAPair(questions[|answers| - 1], Last(answers))];
    assert forall j | 0 <= j < |answers| :: r[j] == QAPair(questions[j], answers[j]);
  }

  /**
   * One mock-mode answer to the awaited `k`-th canned question: the
   * pairing grows by that question and the answer, and before the sixth
   * answer the next canned question is awaited.
   */
  lemma MockAnswerTurn(m: State, c: Canned, input: string, k: nat)
    requires !RealMode(m) && !m.busy && !Blank(input)
    requires k == UserAnswerCount(m.chat) && k < RequiredAnswers <= |c.basicQuestions|
    requires AwaitingAnswer(m.chat) && Last(m.chat) == QuestionMessage(c.basicQuestions[k], k)
    ensures
      var t := ChatSubmit(m, c, input, None);
      && t == m.(chat := t.chat)
      && UserAnswerCount(t.chat) == k + 1
      && PairQA(t.chat) == PairQA(m.chat) + [QAPair(c.basicQuestions[k], input)]
      && (k + 1 < RequiredAnswers ==>
            AwaitingAnswer(t.chat) && Last(t.chat) == QuestionMessage(c.basicQuestions[k + 1], k + 1))
  {
    var t := ChatSubmit(m, c, input, None);
    assert t.chat == Respond(m.chat, input, false, c.basicQuestions, c.basicClosing, None);
    MockTurnPairs(m.chat, input, c.basicQuestions, c.basicClosing, None);
    if k + 1 < RequiredAnswers {
      assert |t.chat| == |m.chat| + 2;
      assert Last(t.chat) == t.chat[|m.chat| + 1];
    }
  }

  /**
   * A mock interview: after the problem is submitted and up to six
   * non-blank answers are given, the answer count equals the number of
   * answers, the pairing lists each canned question with the answer given
   * to it, in order, and until the sixth answer the log awaits the answer to
   * the next canned question. The gate opens exactly at the sixth answer.
   */
  lemma {:induction false} MockInterview(s: State, c: Canned, answers: seq<string>)
    requires !RealMode(s) && !s.busy && !Blank(s.problem)
    requires |c.basicQuestions| >= RequiredAnswers
    requires |answers| <= RequiredAnswers
    requires forall j | 0 <= j < |answers| :: !Blank(answers[j])
    ensures
      var t := AnswerAll(SubmitProblem(s, c), c, answers);
      && !t.busy && t.step == 1 && !RealMode(t)
      && UserAnswerCount(t.chat) == |answers|
      && PairQA(t.chat) == ExpectedPairs(c.basicQuestions, answers)
      && (|answers| < RequiredAnswers ==>
            AwaitingAnswer(t.chat) && Last(t.chat) == QuestionMessage(c.basicQuestions[|answers|], |answers|))
      && (QuotaMet(t.chat) <==> |answers| == RequiredAnswers)
  {
    var s0 := SubmitProblem(s, c);
    if |answers| == 0 {
      assert ExpectedPairs(c.basicQuestions, answers) == [];
    } else {
      var front := Init(answers);
      assert forall j | 0 <= j < |front| :: front[j] == answers[j];
      MockInterview(s, c, front);
      var m := AnswerAll(s0, c, front);
      var k := |front|;
      assert AnswerAll(s0, c, answers) == ChatSubmit(m, c, Last(answers), None);
      MockAnswerTurn(m, c, Last(answers), k);
      ExpectedPairsSnoc(c.basicQuestions, answers);
    }
  }
}
