/**
 * The chat logs of the two question-collection steps: a sequence of
 * messages typed `user` or `ai`, where an `ai` message carrying a question
 * index is a question and any other `ai` message is informational.
 * Covers the answer count behind the quota gate, one submitted answer
 * with the reply that follows it, and the pairing of questions with
 * answers.
 */
module ChatLog {
  import opened Base
  import opened JsText

  /** `REQUIRED_ANSWERS`: the answers a collection step needs before it may be left forwards. */
  const RequiredAnswers: nat := 6

  datatype Sender = User | Ai

  /** `ChatMessage`; the display-only `hint` is not modelled. */
  datatype ChatMessage = ChatMessage(sender: Sender, content: string, questionIndex: Option<nat>)

  /** A question with its first answer, as listed in the question/answer summary. */
  datatype QAPair = QAPair(question: string, answer: string)

  function UserMessage(content: string): ChatMessage {
    ChatMessage(User, content, None)
  }

  function InfoMessage(content: string): ChatMessage {
    ChatMessage(Ai, content, None)
  }

  function QuestionMessage(content: string, index: nat): ChatMessage {
    ChatMessage(Ai, content, Some(index))
  }

  /** `m.type === 'ai' && m.questionIndex !== undefined`. */
  predicate IsQuestion(m: ChatMessage) {
    m.sender == Ai && m.questionIndex.Some?
  }

  /** JavaScript truthiness of a `string | null` result: present and not empty. */
  predicate Truthy(reply: Option<string>) {
    reply.Some? && reply.value != ""
  }

  /** The positions of the user messages of `log`. */
  ghost function UserPositions(log: seq<ChatMessage>): set<nat> {
    set i: nat | i < |log| && log[i].sender == User
  }

  /** `log.filter(m => m.type === 'user').length`. */
  function UserAnswerCount(log: seq<ChatMessage>): (n: nat)
    ensures n <= |log|
  {
    if |log| == 0 then 0
    else UserAnswerCount(Init(log)) + (if Last(log).sender == User then 1 else 0)
  }

  /** The texts of the user messages of `log`, in order: one per counted answer. */
  function UserTexts(log: seq<ChatMessage>): (r: seq<string>)
    ensures |r| == UserAnswerCount(log)
  {
    if |log| == 0 then []
    else UserTexts(Init(log)) + (if Last(log).sender == User then [Last(log).content] else [])
  }

  /** Appending a user message and then `ai` messages adds exactly that message's text. */
  lemma UserTextsAppendTurn(log: seq<ChatMessage>, text: string, replies: seq<ChatMessage>)
    requires |replies| <= 1
    requires forall j | 0 <= j < |replies| :: replies[j].sender == Ai
    ensures UserTexts(log + [UserMessage(text)] + replies) == UserTexts(log) + [text]
  {
    var asked := log + [UserMessage(text)];
    assert Init(asked) == log;
    if |replies| == 1 {
      assert Init(asked + replies) == asked;
    } else {
      assert asked + replies == asked;
    }
  }

  /** The answer count is the number of user-typed messages in the log, whatever else it holds. */
  lemma {:induction false} UserAnswerCountIsUserMessages(log: seq<ChatMessage>)
    ensures UserAnswerCount(log) == |UserPositions(log)|
  {
    if |log| > 0 {
      UserAnswerCountIsUserMessages(Init(log));
      UserPositionsSnoc(log);
    }
  }

  /** The user positions of a log: those of all but its last message, plus the last one if it is a user message. */
  lemma UserPositionsSnoc(log: seq<ChatMessage>)
    requires |log| > 0
    ensures |UserPositions(log)| == |UserPositions(Init(log))| + (if Last(log).sender == User then 1 else 0)
  {
    var n := |log| - 1;
    var front := UserPositions(Init(log));
    assert n !in front;
    if log[n].sender == User {
      assert UserPositions(log) == front + {n};
    } else {
      assert UserPositions(log) == front;
    }
  }

  /** Answer counts add up over concatenated logs. */
  lemma {:induction false} UserAnswerCountAppend(a: seq<ChatMessage>, b: seq<ChatMessage>)
    ensures UserAnswerCount(a + b) == UserAnswerCount(a) + UserAnswerCount(b)
  {
    if |b| == 0 {
      assert a + b == a;
    } else {
      assert Init(a + b) == a + Init(b);
      assert Last(a + b) == Last(b);
      UserAnswerCountAppend(a, Init(b));
    }
  }

  /** Appending one message raises the answer count by one exactly when it is a user message. */
  lemma CountAppendOne(log: seq<ChatMessage>, m: ChatMessage)
    ensures UserAnswerCount(log + [m]) == UserAnswerCount(log) + (if m.sender == User then 1 else 0)
  {
    assert Init(log + [m]) == log;
  }

  /** An `ai` message, with or without a question index, never changes the answer count wherever it is inserted. */
  lemma AiMessageUncounted(log: seq<ChatMessage>, i: nat, m: ChatMessage)
    requires i <= |log|
    requires m.sender == Ai
    ensures UserAnswerCount(log[..i] + [m] + log[i..]) == UserAnswerCount(log)
  {
    SliceSplit(log, i);
    CountInsert(log[..i], log[i..], m);
  }

  /** A log is its two halves around any position. */
  lemma SliceSplit(log: seq<ChatMessage>, i: nat)
    requires i <= |log|
    ensures log[..i] + log[i..] == log
  {
  }

  /** Inserting an `ai` message between two parts of a log does not change its answer count. */
  lemma CountInsert(a: seq<ChatMessage>, b: seq<ChatMessage>, m: ChatMessage)
    requires m.sender == Ai
    ensures UserAnswerCount(a + [m] + b) == UserAnswerCount(a + b)
  {
    UserAnswerCountAppend(a + [m], b);
    CountAppendOne(a, m);
    UserAnswerCountAppend(a, b);
  }

  /** The quota gate: at least `REQUIRED_ANSWERS` user answers. */
  predicate QuotaMet(log: seq<ChatMessage>) {
    UserAnswerCount(log) >= RequiredAnswers
  }

  /**
   * The mock next question after `k` answers: `questions[k]`, carrying
   * question index `k`, or nothing when the list has no entry `k`.
   */
  function MockNextQuestion(questions: seq<string>, k: nat): (r: Option<ChatMessage>)
    ensures r.Some? <==> k < |questions|
    ensures r.Some? ==> IsQuestion(r.value) && r.value.questionIndex == Some(k) && r.value.content == questions[k]
  {
    if k < |questions| then Some(QuestionMessage(questions[k], k)) else None
  }

  /**
   * The message that follows the `k`-th answer, if any: below six answers
   * the next question (the mock list's entry `k`, or the trimmed reply of
   * the real call when that call produced text), from the sixth answer on
   * the closing message.
   */
  function Follower(k: nat, useAI: bool, questions: seq<string>, closing: string,
                    reply: Option<string>): (f: Option<ChatMessage>)
    ensures f.Some? ==> f.value.sender == Ai
    ensures k >= RequiredAnswers ==> f == Some(InfoMessage(closing))
    ensures k < RequiredAnswers && f.Some? ==> f.value.questionIndex == Some(k)
    ensures k < RequiredAnswers && !useAI ==>
              (f.Some? <==> k < |questions|) && (f.Some? ==> f.value.content == questions[k])
    ensures k < RequiredAnswers && useAI ==>
              (f.Some? <==> Truthy(reply)) && (f.Some? ==> f.value.content == Trim(reply.value))
  {
    if k >= RequiredAnswers then Some(InfoMessage(closing))
    else if useAI then (if Truthy(reply) then Some(QuestionMessage(Trim(reply.value), k)) else None)
    else MockNextQuestion(questions, k)
  }

  /**
   * One submitted answer and the reply it gets (`handleChatSubmit`,
   * `handleDetailedChatSubmit`): the answer is appended; while fewer than
   * six answers exist, the next question follows (the mock list entry, or
   * the trimmed reply of the real call when that call produced text); from
   * the sixth answer on, the closing message follows.
   */
  function Respond(log: seq<ChatMessage>, answer: string, useAI: bool, questions: seq<string>,
                   closing: string, reply: Option<string>): (r: seq<ChatMessage>)
    ensures |log| < |r| <= |log| + 2
    ensures r[..|log|] == log && r[|log|] == UserMessage(answer)
    ensures UserAnswerCount(r) == UserAnswerCount(log) + 1
    ensures
      var k := UserAnswerCount(log) + 1;
      && (|r| == |log| + 2 ==> r[|log| + 1].sender == Ai)
      && (k < RequiredAnswers && |r| == |log| + 2 ==> r[|log| + 1].questionIndex == Some(k))
      && (k >= RequiredAnswers ==> |r| == |log| + 2 && r[|log| + 1] == InfoMessage(closing))
      && (k < RequiredAnswers && !useAI ==>
            (|r| == |log| + 2 <==> k < |questions|)
            && (k < |questions| ==> r[|log| + 1].content == questions[k]))
      && (k < RequiredAnswers && useAI ==>
            (|r| == |log| + 2 <==> Truthy(reply))
            && (Truthy(reply) ==> r[|log| + 1].content == Trim(reply.value)))
  {
    var answered := log + [UserMessage(answer)];
    CountAppendOne(log, UserMessage(answer));
    match Follower(UserAnswerCount(log) + 1, useAI, questions, closing, reply)
    case None => answered
    case Some(m) =>
      CountAppendOne(answered, m);
      answered + [m]
  }

  /**
   * `chatMessages.find((m, i) => m.type === 'user' && i > ...)` searching
   * from position `j`: the first user message at or after `j`, if any.
   */
  function FirstUserFrom(log: seq<ChatMessage>, j: nat): (r: Option<nat>)
    requires j <= |log|
    ensures r.Some? ==>
              && j <= r.value < |log| && log[r.value].sender == User
              && forall k | j <= k < r.value :: log[k].sender != User
    ensures r.None? ==> forall k | j <= k < |log| :: log[k].sender != User
    decreases |log| - j
  {
    if j == |log| then None
    else if log[j].sender == User then Some(j)
    else FirstUserFrom(log, j + 1)
  }

  /** The question at position `i` has an answer somewhere after it. */
  predicate Answered(log: seq<ChatMessage>, i: nat)
    requires i < |log|
  {
    FirstUserFrom(log, i + 1).Some?
  }

  /**
   * What the message at position `i` contributes to the pairing: when it
   * is a question with a later user message, the question with the first
   * such message; nothing otherwise.
   */
  function PairAt(log: seq<ChatMessage>, i: nat): seq<QAPair>
    requires i < |log|
  {
    if IsQuestion(log[i]) then
      match FirstUserFrom(log, i + 1)
      case Some(j) => [QAPair(log[i].content, log[j].content)]
      case None => []
    else []
  }

  /** The pairs contributed by positions `i` onwards, in log order. */
  function PairFrom(log: seq<ChatMessage>, i: nat): seq<QAPair>
    requires i <= |log|
    decreases |log| - i
  {
    if i == |log| then [] else PairAt(log, i) + PairFrom(log, i + 1)
  }

  /** The question/answer pairing over the whole log, in log order. */
  function PairQA(log: seq<ChatMessage>): seq<QAPair> {
    PairFrom(log, 0)
  }

  /** The question at position `i`, paired with `answer`, if it is a question without an answer yet. */
  function PendingAt(log: seq<ChatMessage>, i: nat, answer: string): seq<QAPair>
    requires i < |log|
  {
    if IsQuestion(log[i]) && !Answered(log, i) then [QAPair(log[i].content, answer)] else []
  }

  /** The questions at positions `i` onwards that have no answer yet, each paired with `answer`. */
  function PendingFrom(log: seq<ChatMessage>, i: nat, answer: string): seq<QAPair>
    requires i <= |log|
    decreases |log| - i
  {
    if i == |log| then [] else PendingAt(log, i, answer) + PendingFrom(log, i + 1, answer)
  }

  /** The number of questions at positions `i` onwards. */
  function QuestionCountFrom(log: seq<ChatMessage>, i: nat): nat
    requires i <= |log|
    decreases |log| - i
  {
    if i == |log| then 0
    else QuestionCountFrom(log, i + 1) + (if IsQuestion(log[i]) then 1 else 0)
  }

  /** Every question of the log has been answered. */
  predicate NoPending(log: seq<ChatMessage>) {
    forall i | 0 <= i < |log| && IsQuestion(log[i]) :: Answered(log, i)
  }

  /** The log ends with a question, and every earlier question has been answered. */
  predicate AwaitingAnswer(log: seq<ChatMessage>) {
    |log| > 0 && IsQuestion(Last(log)) && NoPending(Init(log))
  }

  /** Appending a message does not change the first user message found inside the old log. */
  lemma FirstUserExtend(log: seq<ChatMessage>, m: ChatMessage, j: nat)
    requires j <= |log|
    ensures FirstUserFrom(log + [m], j) ==
              match FirstUserFrom(log, j)
              case Some(x) => Some(x)
              case None => if m.sender == User then Some(|log|) else None
  {
    var ext := log + [m];
    match FirstUserFrom(log, j)
    case Some(x) =>
      FirstUserUnique(ext, j, x);
    case None =>
      if m.sender == User {
        FirstUserUnique(ext, j, |log|);
      } else {
        assert forall k | j <= k < |ext| :: ext[k].sender != User by {
          forall k | j <= k < |ext| ensures ext[k].sender != User {
            if k < |log| { assert ext[k] == log[k]; }
          }
        }
      }
  }

  /** The first user message from `j` is the one position that is a user message with none before it. */
  lemma FirstUserUnique(log: seq<ChatMessage>, j: nat, x: nat)
    requires j <= x < |log| && log[x].sender == User
    requires forall k | j <= k < x :: log[k].sender != User
    ensures FirstUserFrom(log, j) == Some(x)
  {
  }

  /** With no user message after position `i`, nothing from `i` on is paired. */
  lemma {:induction false} NoUserNoPairs(log: seq<ChatMessage>, i: nat)
    requires i <= |log|
    requires FirstUserFrom(log, i).None?
    ensures PairFrom(log, i) == []
    decreases |log| - i
  {
    if i < |log| {
      assert FirstUserFrom(log, i + 1).None?;
      assert PairAt(log, i) == [];
      NoUserNoPairs(log, i + 1);
    }
  }

  /** Appending an `ai` message does not change what an earlier position contributes. */
  lemma PairAtAppendAi(log: seq<ChatMessage>, m: ChatMessage, i: nat)
    requires m.sender == Ai
    requires i < |log|
    ensures PairAt(log + [m], i) == PairAt(log, i)
  {
    var ext := log + [m];
    FirstUserExtend(log, m, i + 1);
    assert ext[i] == log[i];
    match FirstUserFrom(log, i + 1)
    case Some(x) =>
      assert ext[x] == log[x];
    case None =>
  }

  /**
   * Appending an `ai` message changes no pairing: it answers nothing, and
   * a question appended at the end is unanswered, so it is dropped.
   */
  lemma {:induction false} PairFromAppendAi(log: seq<ChatMessage>, m: ChatMessage, i: nat)
    requires m.sender == Ai
    requires i <= |log|
    ensures PairFrom(log + [m], i) == PairFrom(log, i)
    decreases |log| - i
  {
    var ext := log + [m];
    if i == |log| {
      assert FirstUserFrom(ext, i + 1) == None;
      assert PairAt(ext, i) == [];
      assert PairFrom(ext, i + 1) == [];
    } else {
      PairFromAppendAi(log, m, i + 1);
      PairAtAppendAi(log, m, i);
    }
  }

  /** Appending a user message adds to what position `i` contributes exactly its pending question. */
  lemma PairAtAppendUser(log: seq<ChatMessage>, m: ChatMessage, i: nat)
    requires m.sender == User
    requires i < |log|
    ensures PairAt(log + [m], i) == PairAt(log, i) + PendingAt(log, i, m.content)
    ensures PendingAt(log, i, m.content) != [] ==> FirstUserFrom(log, i + 1).None?
  {
    var ext := log + [m];
    FirstUserExtend(log, m, i + 1);
    assert ext[i] == log[i];
    match FirstUserFrom(log, i + 1)
    case Some(x) =>
      assert ext[x] == log[x];
    case None =>
      assert ext[|log|] == m;
  }

  /** Regrouping four pieces when one of the two middle ones is empty. */
  lemma Regroup(a: seq<QAPair>, c: seq<QAPair>, b: seq<QAPair>, d: seq<QAPair>)
    requires c == [] || b == []
    ensures (a + c) + (b + d) == (a + b) + (c + d)
  {
    if c == [] {
      assert a + c == a;
      assert c + d == d;
    } else {
      assert a + b == a;
      assert b + d == d;
    }
  }

  /**
   * Appending a user message answers exactly the questions that were
   * pending, which all come after the answered ones.
   */
  lemma {:induction false} PairFromAppendUser(log: seq<ChatMessage>, m: ChatMessage, i: nat)
    requires m.sender == User
    requires i <= |log|
    ensures PairFrom(log + [m], i) == PairFrom(log, i) + PendingFrom(log, i, m.content)
    decreases |log| - i
  {
    var ext := log + [m];
    if i == |log| {
      assert PairAt(ext, i) == [];
      assert PairFrom(ext, i + 1) == [];
    } else {
      PairFromAppendUser(log, m, i + 1);
      PairAtAppendUser(log, m, i);
      if PendingAt(log, i, m.content) != [] {
        NoUserNoPairs(log, i + 1);
      }
      Regroup(PairAt(log, i), PendingAt(log, i, m.content), PairFrom(log, i + 1), PendingFrom(log, i + 1, m.content));
    }
  }

  /** Without pending questions, nothing is pending from any position. */
  lemma {:induction false} NoPendingFrom(log: seq<ChatMessage>, i: nat, answer: string)
    requires NoPending(log)
    requires i <= |log|
    ensures PendingFrom(log, i, answer) == []
    decreases |log| - i
  {
    if i < |log| {
      NoPendingFrom(log, i + 1, answer);
    }
  }

  /** A user message appended after every question is answered adds no pair. */
  lemma PairsAppendUnneededAnswer(log: seq<ChatMessage>, m: ChatMessage)
    requires m.sender == User
    requires NoPending(log)
    ensures PairQA(log + [m]) == PairQA(log)
  {
    PairFromAppendUser(log, m, 0);
    NoPendingFrom(log, 0, m.content);
  }

  /** An appended `ai` message adds no pair (an unanswered question is omitted). */
  lemma PairsAppendAi(log: seq<ChatMessage>, m: ChatMessage)
    requires m.sender == Ai
    ensures PairQA(log + [m]) == PairQA(log)
  {
    PairFromAppendAi(log, m, 0);
  }

  /** In a log awaiting an answer, only its last question is pending. */
  lemma {:induction false} AwaitingPendingFrom(log: seq<ChatMessage>, i: nat, answer: string)
    requires AwaitingAnswer(log)
    requires i < |log|
    ensures PendingFrom(log, i, answer) == [QAPair(Last(log).content, answer)]
    decreases |log| - i
  {
    var n := |log| - 1;
    if i == n {
      assert FirstUserFrom(log, n + 1) == None;
      assert PendingFrom(log, n + 1, answer) == [];
    } else {
      AwaitingPendingFrom(log, i + 1, answer);
      if IsQuestion(log[i]) {
        assert Init(log)[i] == log[i];
        assert Answered(Init(log), i);
        FirstUserExtend(Init(log), Last(log), i + 1);
        assert Init(log) + [Last(log)] == log;
      }
    }
  }

  /** Answering the awaited question adds exactly that question with this answer to the pairing. */
  lemma PairsAnswerAwaited(log: seq<ChatMessage>, m: ChatMessage)
    requires m.sender == User
    requires AwaitingAnswer(log)
    ensures PairQA(log + [m]) == PairQA(log) + [QAPair(Last(log).content, m.content)]
  {
    PairFromAppendUser(log, m, 0);
    AwaitingPendingFrom(log, 0, m.content);
  }

  /** Pairs and pending questions from `i` on together account for every question from `i` on. */
  lemma {:induction false} PairsAndPendingCount(log: seq<ChatMessage>, i: nat, answer: string)
    requires i <= |log|
    ensures |PairFrom(log, i)| + |PendingFrom(log, i, answer)| == QuestionCountFrom(log, i)
    decreases |log| - i
  {
    if i < |log| {
      PairsAndPendingCount(log, i + 1, answer);
    }
  }

  /** A pending question from `i` on shows up in `PendingFrom`. */
  lemma {:induction false} PendingFromNonEmpty(log: seq<ChatMessage>, i: nat, p: nat, answer: string)
    requires i <= p < |log|
    requires IsQuestion(log[p]) && !Answered(log, p)
    ensures |PendingFrom(log, i, answer)| > 0
    decreases |log| - i
  {
    if i < p {
      PendingFromNonEmpty(log, i + 1, p, answer);
    }
  }

  /**
   * The pairing has one entry per question exactly when every question
   * has been answered; otherwise the unanswered questions are omitted.
   */
  lemma PairsCoverAllQuestionsIff(log: seq<ChatMessage>)
    ensures |PairQA(log)| <= QuestionCountFrom(log, 0)
    ensures |PairQA(log)| == QuestionCountFrom(log, 0) <==> NoPending(log)
  {
    PairsAndPendingCount(log, 0, "");
    if NoPending(log) {
      NoPendingFrom(log, 0, "");
    } else {
      var p :| 0 <= p < |log| && IsQuestion(log[p]) && !Answered(log, p);
      PendingFromNonEmpty(log, 0, p, "");
    }
  }

  /**
   * A mock-mode answer to the awaited question: the pairing grows by
   * exactly that question and answer, and, when a next question follows,
   * the log is awaiting an answer again.
   */
  lemma MockTurnPairs(log: seq<ChatMessage>, answer: string, questions: seq<string>, closing: string,
                      reply: Option<string>)
    requires AwaitingAnswer(log)
    ensures
      var r := Respond(log, answer, false, questions, closing, reply);
      && PairQA(r) == PairQA(log) + [QAPair(Last(log).content, answer)]
      && (UserAnswerCount(r) < RequiredAnswers && UserAnswerCount(r) < |questions| ==> AwaitingAnswer(r))
  {
    var r := Respond(log, answer, false, questions, closing, reply);
    var answered := log + [UserMessage(answer)];
    PairsAnswerAwaited(log, UserMessage(answer));
    assert r[..|answered|] == answered;
    if |r| == |answered| + 1 {
      assert r == answered + [r[|answered|]];
      PairsAppendAi(answered, r[|answered|]);
      assert Init(r) == answered;
      forall i | 0 <= i < |answered| && IsQuestion(answered[i]) ensures Answered(answered, i) {
        FirstUserExtend(log, UserMessage(answer), i + 1);
      }
    } else {
      assert r == answered;
    }
  }

  /**
   * The pairing as written: filter the questions, `find` each one's first
   * later user message, and drop the questions without one.
   */
  method PairQuestions(log: seq<ChatMessage>) returns (pairs: seq<QAPair>)
    ensures pairs == PairQA(log)
  {
    pairs := [];
    var i := 0;
    while i < |log|
      invariant 0 <= i <= |log|
      invariant pairs + PairFrom(log, i) == PairQA(log)
    {
      var found: seq<QAPair> := [];
      if IsQuestion(log[i]) {
        var answer := FirstAnswer(log, i + 1);
        if answer.Some? {
          found := [QAPair(log[i].content, log[answer.value].content)];
        }
      }
      PairFromStep(log, i, pairs, found);
      pairs := pairs + found;
      i := i + 1;
    }
    assert PairFrom(log, i) == [];
  }

  /** One turn of the pairing loop: position `i` contributes `found`. */
  lemma PairFromStep(log: seq<ChatMessage>, i: nat, pairs: seq<QAPair>, found: seq<QAPair>)
    requires i < |log|
    requires found == PairAt(log, i)
    ensures pairs + PairFrom(log, i) == (pairs + found) + PairFrom(log, i + 1)
  {
  }

  /** The `find` for one question: scan forward from `j` for the first user message. */
  method FirstAnswer(log: seq<ChatMessage>, j: nat) returns (r: Option<nat>)
    requires j <= |log|
    ensures r == FirstUserFrom(log, j)
  {
    var k := j;
    while k < |log| && log[k].sender != User
      invariant j <= k <= |log|
      invariant forall x | j <= x < k :: log[x].sender != User
    {
      k := k + 1;
    }
    if k < |log| {
      FirstUserUnique(log, j, k);
      r := Some(k);
    } else {
      r := None;
    }
  }
}
