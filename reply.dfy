/**
 * The chat page's reply selector (`generateAIResponse`): the input is
 * lower-cased and tested for keywords in a fixed priority order; the first
 * rule that matches picks a canned reply, and an input that matches no rule
 * is echoed back inside a fixed sentence.
 *
 * The choice of rule (`Select`) is kept apart from the text it produces
 * (`TextOf`), so that facts about the choice are stated without the texts.
 */
module Reply {
  import opened Text

  // The canned texts, word by word; each text is its words joined by single
  // spaces. Keeping the words apart keeps proofs about the texts small.

  const CourseRecommendationWords: seq<string> := [
    "Based", "on", "your", "learning", "patterns,", "I", "recommend", "focusing", "on",
    "'Data", "Science", "Essentials'", "and", "'AI", "Fundamentals'.", "These", "courses",
    "align", "well", "with", "your", "interests", "and", "current", "skill", "level.", "Would",
    "you", "like", "me", "to", "create", "a", "personalized", "study", "plan", "for", "these",
    "courses?"
  ]

  const StudyStrategyWords: seq<string> := [
    "Here", "are", "some", "effective", "study", "strategies:", "1)", "Use", "spaced",
    "repetition", "for", "better", "retention,", "2)", "Take", "regular", "breaks",
    "(Pomodoro", "technique),", "3)", "Practice", "active", "recall", "through", "quizzes,",
    "4)", "Join", "study", "groups", "for", "collaborative", "learning.", "I", "can", "help",
    "you", "implement", "these", "strategies", "in", "your", "daily", "routine."
  ]

  const ProgressAnalysisWords: seq<string> := [
    "Your", "learning", "progress", "shows", "strong", "engagement", "in", "technical",
    "courses.", "You're", "performing", "15%", "above", "average", "in", "programming",
    "courses.", "Areas", "for", "improvement:", "consider", "spending", "more", "time", "on",
    "practical", "exercises.", "I", "suggest", "dedicating", "30", "minutes", "daily", "to",
    "hands-on", "coding", "practice."
  ]

  const LearningTipsWords: seq<string> := [
    "Here", "are", "some", "AI-powered", "learning", "tips:", "1)", "Use", "adaptive",
    "learning", "paths", "that", "adjust", "to", "your", "pace,", "2)", "Leverage",
    "personalized", "content", "recommendations,", "3)", "Take", "advantage", "of",
    "real-time", "feedback", "on", "assignments,", "4)", "Engage", "with", "AI-generated",
    "practice", "questions.", "These", "features", "are", "designed", "to", "optimize", "your",
    "learning", "experience."
  ]

  const FallbackOpeningWords: seq<string> := [
    "I", "understand", "you're", "asking", "about", "'"
  ]

  const FallbackClosingWords: seq<string> := [
    "'.", "Let", "me", "help", "you", "with", "that.", "Could", "you", "provide", "more",
    "specific", "details", "about", "what", "you'd", "like", "to", "know?", "I'm", "here",
    "to", "assist", "with", "course", "recommendations,", "study", "strategies,", "progress",
    "analysis,", "and", "learning", "tips."
  ]


  const CourseRecommendationReply: string := JoinWords(CourseRecommendationWords)
  const StudyStrategyReply: string := JoinWords(StudyStrategyWords)
  const ProgressAnalysisReply: string := JoinWords(ProgressAnalysisWords)
  const LearningTipsReply: string := JoinWords(LearningTipsWords)

  /** The echo reply's text before the echoed input, ending in an opening quote. */
  const FallbackOpening: string := JoinWords(FallbackOpeningWords)

  /** The echo reply's text after the echoed input, starting with the closing quote. */
  const FallbackClosing: string := JoinWords(FallbackClosingWords)

  // The four keyword rules, each applied to the lower-cased input.

  predicate AsksAboutCourses(input: string) {
    Includes(input, "recommend") || Includes(input, "course")
  }

  predicate AsksAboutStudy(input: string) {
    Includes(input, "study") || Includes(input, "strategy")
  }

  predicate AsksAboutProgress(input: string) {
    Includes(input, "progress") || Includes(input, "analysis")
  }

  predicate AsksForTips(input: string) {
    Includes(input, "tip") || Includes(input, "help")
  }

  /** The reply to an input that no rule recognises: the input echoed verbatim. */
  function FallbackReply(userInput: string): string {
    FallbackOpening + userInput + FallbackClosing
  }

  /** Which branch of the selector answers; the echo carries the original input. */
  datatype Answer =
    | CourseRecommendation
    | StudyStrategy
    | ProgressAnalysis
    | LearningTips
    | Echo(userInput: string)

  /** The branch taken: first matching rule wins, in the order courses, study, progress, tips. */
  function Select(userInput: string): Answer {
    var input := Lower(userInput);
    if AsksAboutCourses(input) then CourseRecommendation
    else if AsksAboutStudy(input) then StudyStrategy
    else if AsksAboutProgress(input) then ProgressAnalysis
    else if AsksForTips(input) then LearningTips
    else Echo(userInput)
  }

  /** The text each branch returns. */
  function TextOf(a: Answer): string {
    match a
    case CourseRecommendation => CourseRecommendationReply
    case StudyStrategy => StudyStrategyReply
    case ProgressAnalysis => ProgressAnalysisReply
    case LearningTips => LearningTipsReply
    case Echo(u) => FallbackReply(u)
  }

  /** `generateAIResponse`. */
  function GenerateResponse(userInput: string): string {
    TextOf(Select(userInput))
  }

  /** Which branch answers, stated without the texts. */
  lemma SelectCases(userInput: string)
    ensures Select(userInput) == CourseRecommendation <==> AsksAboutCourses(Lower(userInput))
    ensures Select(userInput) == StudyStrategy <==>
      !AsksAboutCourses(Lower(userInput)) && AsksAboutStudy(Lower(userInput))
    ensures Select(userInput) == ProgressAnalysis <==>
      !AsksAboutCourses(Lower(userInput)) && !AsksAboutStudy(Lower(userInput)) &&
      AsksAboutProgress(Lower(userInput))
    ensures Select(userInput) == LearningTips <==>
      !AsksAboutCourses(Lower(userInput)) && !AsksAboutStudy(Lower(userInput)) &&
      !AsksAboutProgress(Lower(userInput)) && AsksForTips(Lower(userInput))
    ensures Select(userInput) == Echo(userInput) <==>
      !AsksAboutCourses(Lower(userInput)) && !AsksAboutStudy(Lower(userInput)) &&
      !AsksAboutProgress(Lower(userInput)) && !AsksForTips(Lower(userInput))
  {
  }

  /** Rule 1: the course text is the reply exactly when "recommend" or "course" occurs. */
  lemma CourseRule(userInput: string)
    ensures GenerateResponse(userInput) == CourseRecommendationReply <==> AsksAboutCourses(Lower(userInput))
  {
    SelectCases(userInput);
    if GenerateResponse(userInput) == CourseRecommendationReply {
      TextOfInjective(Select(userInput), CourseRecommendation);
    }
  }

  /** Rule 2: the study text is the reply exactly when rule 1 does not apply and "study" or "strategy" occurs. */
  lemma StudyRule(userInput: string)
    ensures GenerateResponse(userInput) == StudyStrategyReply <==>
      !AsksAboutCourses(Lower(userInput)) && AsksAboutStudy(Lower(userInput))
  {
    SelectCases(userInput);
    if GenerateResponse(userInput) == StudyStrategyReply {
      TextOfInjective(Select(userInput), StudyStrategy);
    }
  }

  /** Rule 3: the progress text is the reply exactly when rules 1-2 do not apply and "progress" or "analysis" occurs. */
  lemma ProgressRule(userInput: string)
    ensures GenerateResponse(userInput) == ProgressAnalysisReply <==>
      !AsksAboutCourses(Lower(userInput)) && !AsksAboutStudy(Lower(userInput)) &&
      AsksAboutProgress(Lower(userInput))
  {
    SelectCases(userInput);
    if GenerateResponse(userInput) == ProgressAnalysisReply {
      TextOfInjective(Select(userInput), ProgressAnalysis);
    }
  }

  /** Rule 4: the tips text is the reply exactly when rules 1-3 do not apply and "tip" or "help" occurs. */
  lemma TipsRule(userInput: string)
    ensures GenerateResponse(userInput) == LearningTipsReply <==>
      !AsksAboutCourses(Lower(userInput)) && !AsksAboutStudy(Lower(userInput)) &&
      !AsksAboutProgress(Lower(userInput)) && AsksForTips(Lower(userInput))
  {
    SelectCases(userInput);
    if GenerateResponse(userInput) == LearningTipsReply {
      TextOfInjective(Select(userInput), LearningTips);
    }
  }

  /**
   * Rule 5: the input is echoed exactly when no keyword occurs, and the echo
   * carries the original input, not its lower-cased form.
   */
  lemma FallbackRule(userInput: string)
    ensures GenerateResponse(userInput) == FallbackReply(userInput) <==>
      !AsksAboutCourses(Lower(userInput)) && !AsksAboutStudy(Lower(userInput)) &&
      !AsksAboutProgress(Lower(userInput)) && !AsksForTips(Lower(userInput))
  {
    SelectCases(userInput);
    if GenerateResponse(userInput) == FallbackReply(userInput) {
      TextOfInjective(Select(userInput), Echo(userInput));
    }
  }

  /** The echo contains the input it answers. */
  lemma FallbackContainsInput(userInput: string)
    ensures Includes(FallbackReply(userInput), userInput)
  {
    assert Includes(userInput, userInput) by {
      IsPrefixIff(userInput, userInput);
    }
    IncludesRight(FallbackOpening, userInput, userInput);
    IncludesLeft(FallbackOpening + userInput, FallbackClosing, userInput);
  }

  /** Different echoed inputs give different replies. */
  lemma FallbackInjective(u: string, v: string)
    requires FallbackReply(u) == FallbackReply(v)
    ensures u == v
  {
    var n := |FallbackOpening|;
    assert |u| == |v|;
    assert u == FallbackReply(u)[n..n + |u|];
    assert v == FallbackReply(v)[n..n + |v|];
  }

  /** An echo starts with 'I', so it differs from a sentence starting otherwise. */
  lemma EchoDiffers(userInput: string, ws: seq<string>)
    requires ws != [] && ws[0] != [] && ws[0][0] != 'I'
    ensures FallbackReply(userInput) != JoinWords(ws)
  {
    var o := FallbackOpeningWords;
    JoinWordsFirst(o);
    JoinWordsFirst(ws);
    assert FallbackReply(userInput)[0] == JoinWords(o)[0];
  }

  /** The study-strategy and learning-tips texts share their first three words only. */
  lemma StudyDiffersFromTips(s: seq<string>, t: seq<string>)
    requires s == StudyStrategyWords && t == LearningTipsWords
    ensures JoinWords(s) != JoinWords(t)
  {
    assert s[0] == t[0] && s[1] == t[1] && s[2] == t[2];
    assert s[..3] == t[..3];
    WordsDifferAt(s, t, 3);
  }

  /** The first word of each canned text, which tells the texts apart. */
  lemma FirstWords(c: seq<string>, s: seq<string>, p: seq<string>, t: seq<string>)
    requires c == CourseRecommendationWords && s == StudyStrategyWords
    requires p == ProgressAnalysisWords && t == LearningTipsWords
    ensures c != [] && c[0] == "Based"
    ensures s != [] && s[0] == "Here"
    ensures p != [] && p[0] == "Your"
    ensures t != [] && t[0] == "Here"
  {
  }

  /** The canned texts are pairwise different. */
  lemma CannedRepliesDistinct()
    ensures CourseRecommendationReply != StudyStrategyReply
    ensures CourseRecommendationReply != ProgressAnalysisReply
    ensures CourseRecommendationReply != LearningTipsReply
    ensures StudyStrategyReply != ProgressAnalysisReply
    ensures StudyStrategyReply != LearningTipsReply
    ensures ProgressAnalysisReply != LearningTipsReply
  {
    var c, s, p, t := CourseRecommendationWords, StudyStrategyWords, ProgressAnalysisWords, LearningTipsWords;
    FirstWords(c, s, p, t);
    WordsDifferAt(c, s, 0);
    WordsDifferAt(c, p, 0);
    WordsDifferAt(c, t, 0);
    WordsDifferAt(s, p, 0);
    StudyDiffersFromTips(s, t);
    WordsDifferAt(p, t, 0);
  }

  /** Different branches give different texts, so the reply shows which rule fired. */
  lemma TextOfInjective(a: Answer, b: Answer)
    requires TextOf(a) == TextOf(b)
    ensures a == b
  {
    CannedRepliesDistinct();
    if a.Echo? && b.Echo? {
      FallbackInjective(a.userInput, b.userInput);
    } else if a.Echo? || b.Echo? {
      var u := if a.Echo? then a.userInput else b.userInput;
      var other := if a.Echo? then b else a;
      var c, s, p, t := CourseRecommendationWords, StudyStrategyWords, ProgressAnalysisWords, LearningTipsWords;
      FirstWords(c, s, p, t);
      EchoDiffers(u, c);
      EchoDiffers(u, s);
      EchoDiffers(u, p);
      EchoDiffers(u, t);
      assert false;
    }
  }

  /** Two inputs get the same reply exactly when the same branch answers both. */
  lemma SameReplySameRule(u: string, v: string)
    ensures GenerateResponse(u) == GenerateResponse(v) <==> Select(u) == Select(v)
  {
    if GenerateResponse(u) == GenerateResponse(v) {
      TextOfInjective(Select(u), Select(v));
    }
  }

  /**
   * Only the echo depends on letter case: inputs equal up to case take the
   * same branch, except that each echo carries its own input.
   */
  lemma CaseOnlyMattersForEcho(a: string, b: string)
    requires SameUpToCase(a, b)
    ensures Select(a).Echo? <==> Select(b).Echo?
    ensures !Select(a).Echo? ==> Select(a) == Select(b)
  {
    SameUpToCaseIff(a, b);
  }

  /** Priority: an input naming a course and a study strategy gets the course reply. */
  lemma CourseBeatsStudy(ws: seq<string>)
    requires ws == ["What", "course", "study", "strategy?"]
    ensures AsksAboutStudy(Lower(JoinWords(ws)))
    ensures Select(JoinWords(ws)) == CourseRecommendation
  {
    assert Includes(Lower("study"), "study") && Includes(Lower("course"), "course");
    PresentInWords(ws, 2, "study");
    PresentInWords(ws, 1, "course");
  }

  /** Keywords match anywhere, even inside a word: "multiple" holds "tip" and gets the tips text. */
  lemma InsideWordMatches(w: string)
    requires w == "multiple"
    ensures GenerateResponse(w) == LearningTipsReply
  {
    var tip := "tip";
    LowerAt(w, 3);
    LowerAt(w, 4);
    LowerAt(w, 5);
    assert Lower(w)[3..6] == tip;
    assert OccursAt(Lower(w), tip, 3);
    IncludesIff(Lower(w), tip);
    MissingLetter(w, "recommend", 0);
    MissingLetter(w, "course", 0);
    MissingLetter(w, "study", 0);
    MissingLetter(w, "strategy", 0);
    MissingLetter(w, "progress", 1);
    MissingLetter(w, "analysis", 0);
    SelectCases(w);
  }

}
