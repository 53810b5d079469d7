/**
 * The AI Assistant page: its message log, the typing indicator and the
 * quick-action catalogue. Sending a message and delivering the reply are two
 * separate steps here; in the page the second one runs from a 1500 ms timer.
 */
module Assistant {
  import opened Text
  import opened Reply

  datatype Sender = User | Ai

  datatype MessageKind = TextMessage | SuggestionMessage | InsightMessage

  /** A chat message. Its id comes from the clock (`Date.now()`), passed in as `now`. */
  datatype Message = Message(id: int, text: string, sender: Sender, kind: MessageKind)

  const GreetingText: string :=
    "Hello! I'm your AI learning assistant. I can help you with course recommendations, study strategies, and answer questions about your learning progress. How can I assist you today?"

  /** The message every session starts with. */
  const Greeting: Message := Message(1, GreetingText, Ai, TextMessage)

  /** A quick-action card; clicking it sends its `action` text. The icon is left out. */
  datatype Suggestion = Suggestion(id: nat, title: string, description: string, action: string)

  // The four action texts, kept as their words so that keyword facts about
  // them can be established word by word.
  const RecommendCoursesActionWords: seq<string> := ["Can", "you", "recommend", "courses", "based", "on", "my", "current", "progress?"]
  const StudyStrategiesActionWords: seq<string> := ["What", "are", "the", "best", "study", "strategies", "for", "improving", "my", "performance?"]
  const AnalyzeProgressActionWords: seq<string> := ["Can", "you", "analyze", "my", "learning", "progress", "and", "suggest", "improvements?"]
  const LearningTipsActionWords: seq<string> := ["What", "are", "some", "AI-powered", "learning", "tips", "you", "can", "share?"]

  const RecommendCoursesAction: string := JoinWords(RecommendCoursesActionWords)
  const StudyStrategiesAction: string := JoinWords(StudyStrategiesActionWords)
  const AnalyzeProgressAction: string := JoinWords(AnalyzeProgressActionWords)
  const LearningTipsAction: string := JoinWords(LearningTipsActionWords)

  const Suggestions: seq<Suggestion> := [
    Suggestion(1, "Course Recommendations",
      "Get personalized course suggestions based on your interests and progress", RecommendCoursesAction),
    Suggestion(2, "Study Strategies",
      "Learn effective study techniques and time management tips", StudyStrategiesAction),
    Suggestion(3, "Progress Analysis",
      "Get insights into your learning patterns and areas for improvement", AnalyzeProgressAction),
    Suggestion(4, "Learning Tips",
      "Discover AI-powered tips to enhance your learning experience", LearningTipsAction)
  ]

  /** The texts of the user's messages, oldest first. */
  function UserTexts(ms: seq<Message>): seq<string> {
    if ms == [] then []
    else UserTexts(ms[..|ms| - 1]) + (if ms[|ms| - 1].sender == User then [ms[|ms| - 1].text] else [])
  }

  /** The texts of the assistant's messages, oldest first. */
  function AiTexts(ms: seq<Message>): seq<string> {
    if ms == [] then []
    else AiTexts(ms[..|ms| - 1]) + (if ms[|ms| - 1].sender == Ai then [ms[|ms| - 1].text] else [])
  }

  /** Appending a message adds its text to its sender's texts only. */
  lemma TextsSnoc(ms: seq<Message>, m: Message)
    ensures UserTexts(ms + [m]) == UserTexts(ms) + (if m.sender == User then [m.text] else [])
    ensures AiTexts(ms + [m]) == AiTexts(ms) + (if m.sender == Ai then [m.text] else [])
  {
    assert (ms + [m])[..|ms|] == ms;
  }

  // The replay below is stated for any reply function `respond`; the page's
  // is `GenerateResponse`. Keeping it a parameter keeps the reply texts out
  // of the proofs about the log's shape.

  /** The replies `respond` gives to a series of questions, in order. */
  function Replies(questions: seq<string>, respond: string -> string): (r: seq<string>)
    ensures |r| == |questions|
  {
    if questions == [] then []
    else Replies(questions[..|questions| - 1], respond) + [respond(questions[|questions| - 1])]
  }

  /** The i-th reply answers the i-th question. */
  lemma {:induction false} RepliesAt(questions: seq<string>, respond: string -> string, i: nat)
    requires i < |questions|
    ensures Replies(questions, respond)[i] == respond(questions[i])
  {
    if i < |questions| - 1 {
      RepliesAt(questions[..|questions| - 1], respond, i);
    }
  }

  /**
   * Replaying a log after the greeting: the questions still waiting for a
   * reply, oldest first, or `Inconsistent` when the log could not have been
   * produced by the page.
   */
  datatype Replay = Consistent(pending: seq<string>) | Inconsistent

  /**
   * One message of the replay: a non-blank question joins the queue; a reply
   * must be the selector's answer to the oldest queued question, which
   * leaves the queue.
   */
  function Step(r: Replay, m: Message, respond: string -> string): Replay {
    match r
    case Inconsistent => Inconsistent
    case Consistent(q) =>
      if m.sender == User then
        if IsBlank(m.text) then Inconsistent else Consistent(q + [m.text])
      else if q != [] && m.text == respond(q[0]) then Consistent(q[1..])
      else Inconsistent
  }

  function ReplayLog(log: seq<Message>, respond: string -> string): Replay {
    if log == [] then Consistent([])
    else Step(ReplayLog(log[..|log| - 1], respond), log[|log| - 1], respond)
  }

  lemma ReplaySnoc(log: seq<Message>, m: Message, respond: string -> string)
    ensures ReplayLog(log + [m], respond) == Step(ReplayLog(log, respond), m, respond)
  {
    assert (log + [m])[..|log|] == log;
  }

  /** Appending after a non-empty sequence extends its tail. */
  lemma TailSnoc<T>(s: seq<T>, x: T)
    requires s != []
    ensures (s + [x])[1..] == s[1..] + [x]
  {
  }

  /** A non-blank question joins the end of the queue. */
  lemma AskStep(ms: seq<Message>, q: seq<string>, m: Message, respond: string -> string)
    requires ms != [] && ReplayLog(ms[1..], respond) == Consistent(q)
    requires m.sender == User && !IsBlank(m.text)
    ensures ReplayLog((ms + [m])[1..], respond) == Consistent(q + [m.text])
  {
    TailSnoc(ms, m);
    ReplaySnoc(ms[1..], m, respond);
  }

  /** The reply to the oldest queued question takes it off the queue. */
  lemma AnswerStep(ms: seq<Message>, q: seq<string>, m: Message, respond: string -> string)
    requires ms != [] && ReplayLog(ms[1..], respond) == Consistent(q)
    requires q != [] && m.sender == Ai && m.text == respond(q[0])
    ensures ReplayLog((ms + [m])[1..], respond) == Consistent(q[1..])
  {
    TailSnoc(ms, m);
    ReplaySnoc(ms[1..], m, respond);
  }

  /**
   * The queue's shape: `pending` is the suffix of the questions `asked` that
   * are still waiting, and `answers` are the replies to the ones before it.
   */
  predicate Queued(asked: seq<string>, pending: seq<string>, answers: seq<string>, respond: string -> string) {
    |pending| <= |asked| && pending == asked[|asked| - |pending|..] &&
    answers == Replies(asked[..|asked| - |pending|], respond)
  }

  /** A new question joins the queue and leaves the answered ones alone. */
  lemma AskKeepsQueued(asked: seq<string>, pending: seq<string>, answers: seq<string>, respond: string -> string, x: string)
    requires Queued(asked, pending, answers, respond)
    ensures Queued(asked + [x], pending + [x], answers, respond)
  {
    var n := |asked| - |pending|;
    assert (asked + [x])[..|asked + [x]| - |pending + [x]|] == asked[..n];
  }

  /** Answering the oldest question moves it from the queue to the answered ones. */
  lemma AnswerKeepsQueued(asked: seq<string>, pending: seq<string>, answers: seq<string>, respond: string -> string)
    requires pending != [] && Queued(asked, pending, answers, respond)
    ensures Queued(asked, pending[1..], answers + [respond(pending[0])], respond)
  {
    var n := |asked| - |pending|;
    assert asked[n] == pending[0];
    assert asked[..n + 1][..n] == asked[..n];
  }

  /**
   * What a consistent log means: the pending questions are the last ones
   * asked, in order, and the assistant's messages are the replies to all the
   * earlier questions, in order.
   */
  lemma {:induction false} ReplayMeaning(log: seq<Message>, pending: seq<string>, respond: string -> string)
    requires ReplayLog(log, respond) == Consistent(pending)
    ensures Queued(UserTexts(log), pending, AiTexts(log), respond)
  {
    if log != [] {
      var init, m := log[..|log| - 1], log[|log| - 1];
      assert log == init + [m];
      TextsSnoc(init, m);
      assert ReplayLog(log, respond) == Step(ReplayLog(init, respond), m, respond);
      var q := ReplayLog(init, respond).pending;
      ReplayMeaning(init, q, respond);
      if m.sender == User {
        assert pending == q + [m.text];
        assert UserTexts(log) == UserTexts(init) + [m.text] && AiTexts(log) == AiTexts(init);
        AskKeepsQueued(UserTexts(init), q, AiTexts(init), respond, m.text);
      } else {
        assert q != [] && pending == q[1..] && m.text == respond(q[0]);
        assert UserTexts(log) == UserTexts(init) && AiTexts(log) == AiTexts(init) + [m.text];
        AnswerKeepsQueued(UserTexts(init), q, AiTexts(init), respond);
      }
    }
  }

  /** A consistent log holds no blank question: blank text is never sent. */
  lemma {:induction false} QuestionsNotBlank(log: seq<Message>, respond: string -> string)
    requires ReplayLog(log, respond).Consistent?
    ensures forall t :: t in UserTexts(log) ==> !IsBlank(t)
  {
    if log != [] {
      var init, m := log[..|log| - 1], log[|log| - 1];
      assert log == init + [m];
      TextsSnoc(init, m);
      QuestionsNotBlank(init, respond);
      if m.sender == User {
        forall t | t in UserTexts(init) + [m.text]
          ensures !IsBlank(t)
        {
          if t != m.text {
            assert t in UserTexts(init);
          }
        }
      }
    }
  }

  /**
   * Once nothing is pending, the assistant has answered every question, in
   * order: its i-th message after the greeting is the reply to the i-th question.
   */
  lemma AllAnswered(log: seq<Message>)
    requires ReplayLog(log, GenerateResponse) == Consistent([])
    ensures |AiTexts(log)| == |UserTexts(log)|
    ensures forall i :: 0 <= i < |UserTexts(log)| ==> AiTexts(log)[i] == GenerateResponse(UserTexts(log)[i])
  {
    ReplayMeaning(log, [], GenerateResponse);
    var asked := UserTexts(log);
    assert asked[..|asked|] == asked;
    forall i | 0 <= i < |asked|
      ensures AiTexts(log)[i] == GenerateResponse(asked[i])
    {
      RepliesAt(asked, GenerateResponse, i);
    }
  }

  class ChatSession {
    var messages: seq<Message>
    var inputText: string
    var isTyping: bool
    /** The questions whose reply timer has not fired yet, oldest first. */
    var pending: seq<string>
    /** The reply function; every session uses the selector, `GenerateResponse`. */
    const respond: string -> string

    ghost predicate Valid()
      reads this
    {
      |messages| >= 1 && ReplayLog(messages[1..], respond) == Consistent(pending) && (isTyping ==> pending != [])
    }

    constructor ()
      ensures Valid()
      ensures messages == [Greeting] && inputText == [] && !isTyping && pending == []
      ensures respond == GenerateResponse
    {
      respond := GenerateResponse;
      messages := [Greeting];
      inputText := [];
      isTyping := false;
      pending := [];
      assert [Greeting][1..] == [];
    }

    /** Typing into the input box (its `onChange`). */
    method SetInput(text: string)
      modifies this
      ensures inputText == text
      ensures messages == old(messages) && isTyping == old(isTyping) && pending == old(pending)
    {
      inputText := text;
    }

    /**
     * `handleSendMessage`: blank text is ignored; otherwise the user's message
     * is appended, the input box is cleared, the typing indicator comes on and
     * the reply is scheduled.
     */
    method SendMessage(text: string, now: int)
      requires Valid()
      modifies this
      ensures Valid()
      ensures IsBlank(text) ==>
        messages == old(messages) && inputText == old(inputText) &&
        isTyping == old(isTyping) && pending == old(pending)
      ensures !IsBlank(text) ==>
        messages == old(messages) + [Message(now, text, User, TextMessage)] &&
        inputText == [] && isTyping && pending == old(pending) + [text]
    {
      if IsBlank(text) {
        return;
      }
      var m := Message(now, text, User, TextMessage);
      AskStep(messages, pending, m, respond);
      messages := messages + [m];
      inputText := [];
      isTyping := true;
      pending := pending + [text];
    }

    /** The Enter key sends the input box's text; it does not look at the typing indicator. */
    method PressEnter(now: int)
      requires Valid()
      modifies this
      ensures Valid()
      ensures IsBlank(old(inputText)) ==>
        messages == old(messages) && inputText == old(inputText) &&
        isTyping == old(isTyping) && pending == old(pending)
      ensures !IsBlank(old(inputText)) ==>
        messages == old(messages) + [Message(now, old(inputText), User, TextMessage)] &&
        inputText == [] && isTyping && pending == old(pending) + [old(inputText)]
    {
      SendMessage(inputText, now);
    }

    /** The send button, which is disabled while the input is blank or a reply is pending. */
    method ClickSend(now: int)
      requires Valid()
      modifies this
      ensures Valid()
      ensures IsBlank(old(inputText)) || old(isTyping) ==>
        messages == old(messages) && inputText == old(inputText) &&
        isTyping == old(isTyping) && pending == old(pending)
      ensures !IsBlank(old(inputText)) && !old(isTyping) ==>
        messages == old(messages) + [Message(now, old(inputText), User, TextMessage)] &&
        inputText == [] && isTyping && pending == old(pending) + [old(inputText)]
    {
      if !IsBlank(inputText) && !isTyping {
        SendMessage(inputText, now);
      }
    }

    /** `handleSuggestionClick`: sends the card's action text, whatever the input box holds. */
    method ClickSuggestion(s: Suggestion, now: int)
      requires Valid()
      modifies this
      ensures Valid()
      ensures IsBlank(s.action) ==>
        messages == old(messages) && inputText == old(inputText) &&
        isTyping == old(isTyping) && pending == old(pending)
      ensures !IsBlank(s.action) ==>
        messages == old(messages) + [Message(now, s.action, User, TextMessage)] &&
        inputText == [] && isTyping && pending == old(pending) + [s.action]
    {
      SendMessage(s.action, now);
    }

    /**
     * The reply timer firing: the reply to the oldest pending question is
     * appended and the typing indicator goes off, even if further replies
     * are still pending.
     */
    method DeliverReply(now: int)
      requires Valid() && pending != []
      modifies this
      ensures Valid()
      ensures messages == old(messages) + [Message(now + 1, respond(old(pending)[0]), Ai, TextMessage)]
      ensures pending == old(pending)[1..] && !isTyping && inputText == old(inputText)
    {
      var q := pending[0];
      var m := Message(now + 1, respond(q), Ai, TextMessage);
      AnswerStep(messages, pending, m, respond);
      messages := messages + [m];
      pending := pending[1..];
      isTyping := false;
    }
  }

  /** The four cards, in order, carry the four action texts. */
  lemma CardActions()
    ensures |Suggestions| == 4
    ensures Suggestions[0].action == RecommendCoursesAction
    ensures Suggestions[1].action == StudyStrategiesAction
    ensures Suggestions[2].action == AnalyzeProgressAction
    ensures Suggestions[3].action == LearningTipsAction
  {
  }

  /** Every quick action reaches the rule it is named after. */
  lemma QuickActionsRoute()
    ensures Select(Suggestions[0].action) == CourseRecommendation
    ensures Select(Suggestions[1].action) == StudyStrategy
    ensures Select(Suggestions[2].action) == ProgressAnalysis
    ensures Select(Suggestions[3].action) == LearningTips
  {
    CardActions();
    RecommendCoursesSelects();
    StudyStrategiesSelects();
    AnalyzeProgressSelects();
    LearningTipsSelects();
  }

  lemma RecommendCoursesSelects()
    ensures Select(RecommendCoursesAction) == CourseRecommendation
  {
    RecommendCoursesRoute(RecommendCoursesActionWords);
  }

  lemma StudyStrategiesSelects()
    ensures Select(StudyStrategiesAction) == StudyStrategy
  {
    StudyStrategiesRoute(StudyStrategiesActionWords);
  }

  lemma AnalyzeProgressSelects()
    ensures Select(AnalyzeProgressAction) == ProgressAnalysis
  {
    AnalyzeProgressRoute(AnalyzeProgressActionWords);
  }

  lemma LearningTipsSelects()
    ensures Select(LearningTipsAction) == LearningTips
  {
    LearningTipsRoute(LearningTipsActionWords);
  }

  /** A sentence whose first letter is not white space is not blank. */
  lemma SentenceNotBlank(ws: seq<string>)
    requires ws != [] && ws[0] != [] && !IsJsSpace(ws[0][0])
    ensures !IsBlank(JoinWords(ws))
  {
    JoinWordsFirst(ws);
    BlankIff(JoinWords(ws));
  }

  /** No quick-action card carries a blank text, so clicking any card sends it. */
  lemma SuggestionsNotBlank()
    ensures forall k :: 0 <= k < |Suggestions| ==> !IsBlank(Suggestions[k].action)
  {
    forall k | 0 <= k < |Suggestions|
      ensures !IsBlank(Suggestions[k].action)
    {
      CardActions();
      if k == 0 {
        RecommendCoursesNotBlank();
      } else if k == 1 {
        StudyStrategiesNotBlank();
      } else if k == 2 {
        AnalyzeProgressNotBlank();
      } else {
        LearningTipsNotBlank();
      }
    }
  }

  lemma RecommendCoursesNotBlank()
    ensures !IsBlank(RecommendCoursesAction)
  {
    var ws := RecommendCoursesActionWords;
    assert ws[0][0] == 'C';
    SentenceNotBlank(ws);
  }

  lemma StudyStrategiesNotBlank()
    ensures !IsBlank(StudyStrategiesAction)
  {
    var ws := StudyStrategiesActionWords;
    assert ws[0][0] == 'W';
    SentenceNotBlank(ws);
  }

  lemma AnalyzeProgressNotBlank()
    ensures !IsBlank(AnalyzeProgressAction)
  {
    var ws := AnalyzeProgressActionWords;
    assert ws[0][0] == 'C';
    SentenceNotBlank(ws);
  }

  lemma LearningTipsNotBlank()
    ensures !IsBlank(LearningTipsAction)
  {
    var ws := LearningTipsActionWords;
    assert ws[0][0] == 'W';
    SentenceNotBlank(ws);
  }






  // Keyword facts about the four action texts. A keyword is absent when each
  // word lacks one of its letters; the lists name that letter word by word.

  lemma RecommendCoursesRoute(ws: seq<string>)
    requires ws == RecommendCoursesActionWords
    ensures Select(JoinWords(ws)) == CourseRecommendation
  {
    RecommendCoursesHasRecommend(ws);
  }

  lemma RecommendCoursesHasRecommend(ws: seq<string>)
    requires ws == RecommendCoursesActionWords
    ensures Includes(Lower(JoinWords(ws)), "recommend")
  {
    assert Includes(Lower("recommend"), "recommend");
    PresentInWords(ws, 2, "recommend");
  }

  lemma StudyStrategiesRoute(ws: seq<string>)
    requires ws == StudyStrategiesActionWords
    ensures Select(JoinWords(ws)) == StudyStrategy
  {
    StudyStrategiesLacksRecommend(ws);
    StudyStrategiesLacksCourse(ws);
    StudyStrategiesHasStudy(ws);
  }

  lemma StudyStrategiesHasStudy(ws: seq<string>)
    requires ws == StudyStrategiesActionWords
    ensures Includes(Lower(JoinWords(ws)), "study")
  {
    assert Includes(Lower("study"), "study");
    PresentInWords(ws, 4, "study");
  }

  lemma StudyStrategiesLacksRecommend(ws: seq<string>)
    requires ws == StudyStrategiesActionWords
    ensures !Includes(Lower(JoinWords(ws)), "recommend")
  {
    var k := "recommend";
    AbsentFromWords(ws, k, [0, 2, 0, 0, 0, 2, 1, 1, 0, 8]);
  }

  lemma StudyStrategiesLacksCourse(ws: seq<string>)
    requires ws == StudyStrategiesActionWords
    ensures !Includes(Lower(JoinWords(ws)), "course")
  {
    var k := "course";
    AbsentFromWords(ws, k, [0, 0, 0, 0, 0, 0, 0, 0, 0, 2]);
  }

  lemma AnalyzeProgressRoute(ws: seq<string>)
    requires ws == AnalyzeProgressActionWords
    ensures Select(JoinWords(ws)) == ProgressAnalysis
  {
    AnalyzeProgressLacksRecommend(ws);
    AnalyzeProgressLacksCourse(ws);
    AnalyzeProgressLacksStudy(ws);
    AnalyzeProgressLacksStrategy(ws);
    AnalyzeProgressHasProgress(ws);
  }

  lemma AnalyzeProgressHasProgress(ws: seq<string>)
    requires ws == AnalyzeProgressActionWords
    ensures Includes(Lower(JoinWords(ws)), "progress")
  {
    assert Includes(Lower("progress"), "progress");
    PresentInWords(ws, 5, "progress");
  }

  lemma AnalyzeProgressLacksRecommend(ws: seq<string>)
    requires ws == AnalyzeProgressActionWords
    ensures !Includes(Lower(JoinWords(ws)), "recommend")
  {
    var k := "recommend";
    AbsentFromWords(ws, k, [0, 0, 0, 0, 2, 2, 0, 0, 2]);
  }

  lemma AnalyzeProgressLacksCourse(ws: seq<string>)
    requires ws == AnalyzeProgressActionWords
    ensures !Includes(Lower(JoinWords(ws)), "course")
  {
    var k := "course";
    AbsentFromWords(ws, k, [1, 0, 0, 0, 0, 0, 0, 0, 0]);
  }

  lemma AnalyzeProgressLacksStudy(ws: seq<string>)
    requires ws == AnalyzeProgressActionWords
    ensures !Includes(Lower(JoinWords(ws)), "study")
  {
    var k := "study";
    AbsentFromWords(ws, k, [0, 0, 0, 0, 0, 1, 0, 3, 2]);
  }

  lemma AnalyzeProgressLacksStrategy(ws: seq<string>)
    requires ws == AnalyzeProgressActionWords
    ensures !Includes(Lower(JoinWords(ws)), "strategy")
  {
    var k := "strategy";
    AbsentFromWords(ws, k, [0, 0, 0, 0, 0, 1, 0, 2, 3]);
  }

  lemma LearningTipsRoute(ws: seq<string>)
    requires ws == LearningTipsActionWords
    ensures Select(JoinWords(ws)) == LearningTips
  {
    LearningTipsLacksRecommend(ws);
    LearningTipsLacksCourse(ws);
    LearningTipsLacksStudy(ws);
    LearningTipsLacksStrategy(ws);
    LearningTipsLacksProgress(ws);
    LearningTipsLacksAnalysis(ws);
    LearningTipsHasTip(ws);
  }

  lemma LearningTipsHasTip(ws: seq<string>)
    requires ws == LearningTipsActionWords
    ensures Includes(Lower(JoinWords(ws)), "tip")
  {
    assert Includes(Lower("tips"), "tip");
    PresentInWords(ws, 5, "tip");
  }

  lemma LearningTipsLacksRecommend(ws: seq<string>)
    requires ws == LearningTipsActionWords
    ensures !Includes(Lower(JoinWords(ws)), "recommend")
  {
    var k := "recommend";
    AbsentFromWords(ws, k, [0, 2, 0, 2, 2, 0, 0, 0, 2]);
  }

  lemma LearningTipsLacksCourse(ws: seq<string>)
    requires ws == LearningTipsActionWords
    ensures !Includes(Lower(JoinWords(ws)), "course")
  {
    var k := "course";
    AbsentFromWords(ws, k, [0, 0, 0, 0, 0, 0, 0, 1, 0]);
  }

  lemma LearningTipsLacksStudy(ws: seq<string>)
    requires ws == LearningTipsActionWords
    ensures !Includes(Lower(JoinWords(ws)), "study")
  {
    var k := "study";
    AbsentFromWords(ws, k, [0, 0, 1, 0, 0, 2, 0, 0, 1]);
  }

  lemma LearningTipsLacksStrategy(ws: seq<string>)
    requires ws == LearningTipsActionWords
    ensures !Includes(Lower(JoinWords(ws)), "strategy")
  {
    var k := "strategy";
    AbsentFromWords(ws, k, [0, 0, 1, 0, 0, 2, 0, 0, 1]);
  }

  lemma LearningTipsLacksProgress(ws: seq<string>)
    requires ws == LearningTipsActionWords
    ensures !Includes(Lower(JoinWords(ws)), "progress")
  {
    var k := "progress";
    AbsentFromWords(ws, k, [0, 0, 0, 3, 0, 1, 0, 0, 0]);
  }

  lemma LearningTipsLacksAnalysis(ws: seq<string>)
    requires ws == LearningTipsActionWords
    ensures !Includes(Lower(JoinWords(ws)), "analysis")
  {
    var k := "analysis";
    AbsentFromWords(ws, k, [1, 1, 0, 1, 4, 0, 0, 3, 1]);
  }
}
