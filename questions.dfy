/**
  The question bank, the answer evaluator (`evaluateAnswer`) and the result
  aggregator (`calculateFinalResult`) of the interview trainer.

  Floating point is replaced by exact integers: an answer score is tracked in
  half-points before rounding, and the overall score of the final report in
  tenths (`overall_score * 10`).
 */
module Questions {
  import opened Strings

  datatype Difficulty = Easy | Medium | Challenging

  /** A question of the bank; its long prompt text plays no part in scoring and is left out. */
  datatype Question = Question(topic: string, difficulty: Difficulty)

  const InterviewQuestions: seq<Question> := [
    Question("Introduction", Easy),
    Question("CSS Fundamentals", Easy),
    Question("HTML Fundamentals", Easy),
    Question("JavaScript Basics", Medium),
    Question("Git & GitHub", Medium),
    Question("Git & GitHub", Medium),
    Question("React Basics", Medium),
    Question("CSS Fundamentals", Medium),
    Question("JavaScript Basics", Medium),
    Question("Web Performance", Challenging)
  ]

  /** `interviewQuestions.length` */
  const QuestionCount: nat := 10

  // ---------------------------------------------------------------------------
  // Answer evaluation
  // ---------------------------------------------------------------------------

  /** The required and bonus keywords of one question. */
  datatype KeywordProfile = KeywordProfile(keywords: seq<string>, bonusKeywords: seq<string>)

  /** `keywordSets[questionIndex] || { keywords: [], bonusKeywords: [] }` */
  function KeywordSets(questionIndex: int): KeywordProfile {
    match questionIndex
    case 0 => KeywordProfile(
      ["learn", "interest", "project", "web", "frontend", "coding", "development", "student"],
      ["passion", "experience", "portfolio", "goal", "career", "motivated"])
    case 1 => KeywordProfile(
      ["inline", "internal", "external", "style", "link", "maintainability", "reusability"],
      ["specificity", "performance", "separation of concerns", "stylesheet"])
    case 2 => KeywordProfile(
      ["semantic", "accessibility", "seo", "meaning", "structure", "screen reader"],
      ["a11y", "search engine", "crawl", "meaningful"])
    case 3 => KeywordProfile(
      ["let", "const", "var", "scope", "hoisting", "block", "function"],
      ["temporal dead zone", "reassign", "redeclare", "mutable"])
    case 4 => KeywordProfile(
      ["branch", "git", "checkout", "create", "feature", "main", "master", "isolated"],
      ["merge", "git branch", "git checkout", "parallel", "workflow"])
    case 5 => KeywordProfile(
      ["pull request", "pr", "review", "merge", "code review", "changes", "feedback"],
      ["approve", "request changes", "comments", "collaboration", "github"])
    case 6 => KeywordProfile(
      ["props", "state", "parent", "child", "rerender", "component", "data"],
      ["immutable", "useState", "lifting state", "unidirectional"])
    case 7 => KeywordProfile(
      ["margin", "padding", "border", "content", "box-sizing", "border-box"],
      ["content-box", "width", "height", "calculation", "total"])
    case 8 => KeywordProfile(
      ["event", "click", "listener", "bubbling", "handler", "addeventlistener"],
      ["capturing", "propagation", "stoppropagation", "target", "currenttarget"])
    case 9 => KeywordProfile(
      ["image", "optimize", "cache", "minify", "compress", "lazy", "load"],
      ["cdn", "bundle", "lighthouse", "network", "render", "blocking"])
    case _ => KeywordProfile([], [])
  }

  /**
    `keywords.filter(k => text.includes(k)).length`: how many list entries occur
    in `text` as substrings (not necessarily as whole words).
   */
  function CountMatches(text: string, keywords: seq<string>): (n: nat)
    ensures n <= |keywords|
  {
    if keywords == [] then 0
    else
      var n := |keywords| - 1;
      CountMatches(text, keywords[..n]) + (if Contains(text, keywords[n]) then 1 else 0)
  }

  /** The count is zero exactly when no keyword occurs, and full exactly when every one does. */
  lemma {:induction false} CountMatchesExtremes(text: string, keywords: seq<string>)
    ensures CountMatches(text, keywords) == 0 <==> forall j :: 0 <= j < |keywords| ==> !Contains(text, keywords[j])
    ensures CountMatches(text, keywords) == |keywords| <==> forall j :: 0 <= j < |keywords| ==> Contains(text, keywords[j])
  {
    if keywords != [] {
      var n := |keywords| - 1;
      CountMatchesExtremes(text, keywords[..n]);
      assert forall j :: 0 <= j < n ==> keywords[..n][j] == keywords[j];
    }
  }

  /** The text keywords are looked for in: `answer.trim().toLowerCase()`. */
  function SearchText(answer: string): string {
    Lower(Trim(answer))
  }

  function KeywordMatches(questionIndex: int, answer: string): nat {
    CountMatches(SearchText(answer), KeywordSets(questionIndex).keywords)
  }

  function BonusMatches(questionIndex: int, answer: string): nat {
    CountMatches(SearchText(answer), KeywordSets(questionIndex).bonusKeywords)
  }

  function Min(a: int, b: int): int { if a <= b then a else b }

  /**
    Twice the score before rounding. The source computes
    `min(10, 3 + 1.5k + b)`, adds 1 (capped at 10) beyond 30 words and 0.5
    (capped at 10) beyond 50 words; doubled, every step is exact on integers.
   */
  function HalfPoints(k: nat, b: nat, words: nat): int {
    var base := Min(20, 6 + 3 * k + 2 * b);
    var detailed := if words > 30 then Min(20, base + 2) else base;
    if words > 50 then Min(20, detailed + 1) else detailed
  }

  /** `Math.round(x2 / 2)`: the nearest integer, halves rounded up. */
  function RoundHalfPoints(x2: int): (score: int)
    ensures x2 == 2 * score || x2 == 2 * score - 1
  {
    (x2 + 1) / 2
  }

  /** The score of an answer with `k` keyword matches, `b` bonus matches and `words` words. */
  function AnswerScore(k: nat, b: nat, words: nat): (score: int)
    ensures 1 <= score <= 10
    ensures words < 5 <==> score == 1
    ensures words >= 5 ==> 3 <= score
  {
    if words < 5 then 1 else RoundHalfPoints(HalfPoints(k, b, words))
  }

  /**
    The fixed sentences an evaluation is made of. The source builds evaluations
    from these literal strings only; `PhraseText` gives each one's text.
   */
  datatype Phrase =
    | TooBriefFeedback | ProvideMoreDetail | IncludeExamples
    | ExcellentFeedback | ClearExplanation | GoodTerminology | ThoroughResponse
    | GoodFeedback | UnderstoodFundamentals | MoreSpecificExamples | CoverEdgeCases
    | DecentFeedback | SomeUnderstanding | ReviewCoreConcepts | PracticeConcreteExamples
    | WeakFeedback | StudyFundamentals | UnderstandWhy | PracticeHandsOn

  function PhraseText(p: Phrase): string {
    match p
    case TooBriefFeedback => "Your answer was too brief. Try to explain concepts more thoroughly with examples."
    case ProvideMoreDetail => "Provide more detailed explanations"
    case IncludeExamples => "Include examples when possible"
    case ExcellentFeedback => "Excellent answer! You demonstrated strong understanding of the concept."
    case ClearExplanation => "Clear explanation of core concepts"
    case GoodTerminology => "Good use of technical terminology"
    case ThoroughResponse => "Thorough and detailed response"
    case GoodFeedback => "Good answer! You covered the basics well, but could expand on some points."
    case UnderstoodFundamentals => "Understood the fundamental concepts"
    case MoreSpecificExamples => "Could provide more specific examples"
    case CoverEdgeCases => "Try to cover edge cases or additional details"
    case DecentFeedback => "Decent attempt! You touched on some key points but missed important concepts."
    case SomeUnderstanding => "Some understanding of basic concepts"
    case ReviewCoreConcepts => "Review the core concepts more thoroughly"
    case PracticeConcreteExamples => "Practice explaining with concrete examples"
    case WeakFeedback => "This answer needs more work. Review the fundamentals of this topic."
    case StudyFundamentals => "Study the fundamental concepts"
    case UnderstandWhy => "Try to understand why these concepts exist"
    case PracticeHandsOn => "Practice with hands-on coding exercises"
  }

  /** `Evaluation` of src/types/interview.ts, with its sentences as `Phrase`s. */
  datatype Evaluation = Evaluation(score: int, feedback: Phrase, strengths: seq<Phrase>, improvements: seq<Phrase>)

  /** The fixed answer to fewer than five words. */
  const TooBrief := Evaluation(1, TooBriefFeedback, [], [ProvideMoreDetail, IncludeExamples])

  /**
    The feedback tiers: the sentences that go with a rounded score, given the
    keyword matches `k`, the bonus matches `b` and the word count.
   */
  function Grade(score: int, k: nat, b: nat, words: nat): (r: Evaluation)
    ensures r.score == score
  {
    if score >= 8 then
      Evaluation(score, ExcellentFeedback,
        [ClearExplanation]
          + (if b > 0 then [GoodTerminology] else [])
          + (if words > 30 then [ThoroughResponse] else []),
        [])
    else if score >= 6 then
      Evaluation(score, GoodFeedback, [UnderstoodFundamentals], [MoreSpecificExamples, CoverEdgeCases])
    else if score >= 4 then
      Evaluation(score, DecentFeedback,
        if k > 0 then [SomeUnderstanding] else [],
        [ReviewCoreConcepts, PracticeConcreteExamples])
    else
      Evaluation(score, WeakFeedback, [], [StudyFundamentals, UnderstandWhy, PracticeHandsOn])
  }

  /**
    What each tier says: at 8 and above only strengths, with the terminology
    strength exactly when a bonus keyword matched and the thoroughness one
    exactly beyond 30 words; one strength and two improvements at 6 and 7;
    two improvements and a strength only if a keyword matched at 4 and 5;
    three improvements and no strength below 4.
   */
  lemma GradeTiers(score: int, k: nat, b: nat, words: nat)
    ensures var r := Grade(score, k, b, words);
      && (score >= 8 ==> r.improvements == [] && 1 <= |r.strengths| <= 3)
      && (score >= 8 ==> (GoodTerminology in r.strengths <==> b > 0) && (ThoroughResponse in r.strengths <==> words > 30))
      && (6 <= score < 8 ==> |r.strengths| == 1 && |r.improvements| == 2)
      && (4 <= score < 6 ==> |r.improvements| == 2 && |r.strengths| == (if k > 0 then 1 else 0))
      && (score < 4 ==> r.strengths == [] && |r.improvements| == 3)
  {
  }

  /** `evaluateAnswer(questionIndex, answer)` */
  function EvaluateAnswer(questionIndex: int, answer: string): (r: Evaluation)
    ensures 1 <= r.score <= 10
    ensures WordCount(answer) < 5 ==> r == TooBrief
    ensures WordCount(answer) >= 5 ==> 3 <= r.score
  {
    var words := WordCount(answer);
    if words < 5 then TooBrief
    else
      var k := KeywordMatches(questionIndex, answer);
      var b := BonusMatches(questionIndex, answer);
      Grade(AnswerScore(k, b, words), k, b, words)
  }

  /**
    The score as the source computes it in floating point (every value is a
    multiple of 0.5, so the arithmetic is exact), before `Math.round`.
   */
  function RawScore(k: nat, b: nat, words: nat): real {
    var base := RealMin(10.0, 3.0 + 1.5 * k as real + b as real);
    var detailed := if words > 30 then RealMin(10.0, base + 1.0) else base;
    if words > 50 then RealMin(10.0, detailed + 0.5) else detailed
  }

  function RealMin(a: real, b: real): real { if a <= b then a else b }

  /**
    The half-point computation is the source's real-valued score doubled, and
    the score of a 5+-word answer is that value rounded to the nearest integer,
    halves up (`Math.round`).
   */
  lemma ScoreIsRoundedRawScore(questionIndex: int, answer: string)
    requires WordCount(answer) >= 5
    ensures var k, b, w := KeywordMatches(questionIndex, answer), BonusMatches(questionIndex, answer), WordCount(answer);
      var raw := RawScore(k, b, w);
      var score := EvaluateAnswer(questionIndex, answer).score as real;
      score - 0.5 <= raw < score + 0.5
  {
    var k, b, w := KeywordMatches(questionIndex, answer), BonusMatches(questionIndex, answer), WordCount(answer);
    HalfPointsExact(k, b, w);
  }

  lemma HalfPointsExact(k: nat, b: nat, words: nat)
    ensures HalfPoints(k, b, words) as real == 2.0 * RawScore(k, b, words)
  {
  }

  /** Bounds of a 5+-word answer's score and of its keyword counts. */
  lemma ScoreAndCountBounds(questionIndex: int, answer: string)
    requires WordCount(answer) >= 5
    ensures 3 <= EvaluateAnswer(questionIndex, answer).score <= 10
    ensures KeywordMatches(questionIndex, answer) <= |KeywordSets(questionIndex).keywords|
    ensures BonusMatches(questionIndex, answer) <= |KeywordSets(questionIndex).bonusKeywords|
  {
  }

  /** More keyword matches, bonus matches or words never lower the score. */
  lemma ScoreMonotone(k: nat, b: nat, words: nat, k': nat, b': nat, words': nat)
    requires k <= k' && b <= b' && words <= words'
    ensures AnswerScore(k, b, words) <= AnswerScore(k', b', words')
  {
  }

  /** The feedback tiers of an answer of five words or more. */
  lemma FeedbackTiers(questionIndex: int, answer: string)
    requires WordCount(answer) >= 5
    ensures var r := EvaluateAnswer(questionIndex, answer);
      var k, b := KeywordMatches(questionIndex, answer), BonusMatches(questionIndex, answer);
      && (r.score >= 8 ==> r.improvements == [] && 1 <= |r.strengths| <= 3)
      && (r.score >= 8 ==> (GoodTerminology in r.strengths <==> b > 0) && (ThoroughResponse in r.strengths <==> WordCount(answer) > 30))
      && (6 <= r.score < 8 ==> |r.strengths| == 1 && |r.improvements| == 2)
      && (4 <= r.score < 6 ==> |r.improvements| == 2 && (|r.strengths| == 1 <==> k > 0) && |r.strengths| <= 1)
      && (r.score < 4 ==> r.strengths == [] && |r.improvements| == 3)
  {
    var k, b, w := KeywordMatches(questionIndex, answer), BonusMatches(questionIndex, answer), WordCount(answer);
    GradeTiers(AnswerScore(k, b, w), k, b, w);
  }

  /**
    A question index outside the bank has no keywords, so a 5+-word answer
    scores 3, 4 or 5 by its word count alone.
   */
  lemma OutOfRangeQuestion(questionIndex: int, answer: string)
    requires questionIndex < 0 || questionIndex >= QuestionCount
    requires WordCount(answer) >= 5
    ensures KeywordMatches(questionIndex, answer) == 0 && BonusMatches(questionIndex, answer) == 0
    ensures EvaluateAnswer(questionIndex, answer).score ==
      if WordCount(answer) > 50 then 5 else if WordCount(answer) > 30 then 4 else 3
  {
    NoKeywordsOutOfRange(questionIndex, answer);
    EvaluatedScore(questionIndex, answer);
  }

  lemma NoKeywordsOutOfRange(questionIndex: int, answer: string)
    requires questionIndex < 0 || questionIndex >= QuestionCount
    ensures KeywordMatches(questionIndex, answer) == 0 && BonusMatches(questionIndex, answer) == 0
  {
    assert KeywordSets(questionIndex) == KeywordProfile([], []);
  }

  /** The score of a 5+-word answer is `AnswerScore` of its three counts. */
  lemma EvaluatedScore(questionIndex: int, answer: string)
    requires WordCount(answer) >= 5
    ensures EvaluateAnswer(questionIndex, answer).score ==
      AnswerScore(KeywordMatches(questionIndex, answer), BonusMatches(questionIndex, answer), WordCount(answer))
  {
  }

  /**
    Matching is on the lower-cased answer, so the bonus keyword "useState" of
    question 6 can never match: at most three of its four bonus keywords count.
   */
  lemma UseStateNeverMatches(answer: string)
    ensures !Contains(SearchText(answer), "useState")
    ensures BonusMatches(6, answer) <= 3
  {
    var ks := KeywordSets(6).bonusKeywords;
    assert |ks| == 4 && ks[1] == "useState";
    LowerNeverContainsUpper(Trim(answer), ks[1], 3);
    CountMatchesMissing(SearchText(answer), ks, 1);
  }

  /** A keyword that does not occur lowers the count below the list length. */
  lemma {:induction false} CountMatchesMissing(text: string, keywords: seq<string>, j: nat)
    requires j < |keywords| && !Contains(text, keywords[j])
    ensures CountMatches(text, keywords) <= |keywords| - 1
  {
    var n := |keywords| - 1;
    if j < n {
      var init := keywords[..n];
      assert init[j] == keywords[j];
      CountMatchesMissing(text, init, j);
    }
  }

  // ---------------------------------------------------------------------------
  // Final report
  // ---------------------------------------------------------------------------

  datatype Level = Beginner | Intermediate | Strong

  /** The report's topic labels, one per question position. */
  datatype Topic =
    | SelfIntroduction | CssStyling | SemanticHtml | JavaScriptVariables | GitBranches
    | PullRequests | ReactPropsState | CssBoxModel | JavaScriptEvents | WebPerformance

  const Topics: seq<Topic> := [
    SelfIntroduction, CssStyling, SemanticHtml, JavaScriptVariables, GitBranches,
    PullRequests, ReactPropsState, CssBoxModel, JavaScriptEvents, WebPerformance
  ]

  function TopicLabel(t: Topic): string {
    match t
    case SelfIntroduction => "Self Introduction"
    case CssStyling => "CSS Styling"
    case SemanticHtml => "Semantic HTML"
    case JavaScriptVariables => "JavaScript Variables"
    case GitBranches => "Git Branches"
    case PullRequests => "Pull Requests"
    case ReactPropsState => "React Props/State"
    case CssBoxModel => "CSS Box Model"
    case JavaScriptEvents => "JavaScript Events"
    case WebPerformance => "Web Performance"
  }

  /** The three fixed summaries, one per level. */
  datatype Summary = SolidKnowledge | GoodFoundation | RightTrack

  function SummaryText(s: Summary): string {
    match s
    case SolidKnowledge => "Great job! You demonstrated solid frontend knowledge across most topics. Keep building projects to maintain and expand your skills."
    case GoodFoundation => "You have a good foundation in frontend development. With some focused practice on weaker areas, you'll be ready for junior developer positions."
    case RightTrack => "You're on the right track! Focus on building a stronger foundation in HTML, CSS, and JavaScript fundamentals before diving into frameworks."
  }

  /** The recommendations; `FocusOn` carries the weak areas it names. */
  datatype Recommendation = FocusOn(areas: seq<Topic>) | PracticeProjects | ReviewDocumentation | TakeCourses

  function RecommendationText(r: Recommendation): string {
    match r
    case FocusOn(areas) => "Focus on improving: " + Join(Labels(areas), ", ")
    case PracticeProjects => "Practice building small projects to reinforce concepts"
    case ReviewDocumentation => "Review documentation for topics you found challenging"
    case TakeCourses => "Consider taking structured frontend courses"
  }

  function Labels(topics: seq<Topic>): (r: seq<string>)
    ensures |r| == |topics|
  {
    seq(|topics|, k requires 0 <= k < |topics| => TopicLabel(topics[k]))
  }

  /** `parts.join(sep)` */
  function Join(parts: seq<string>, sep: string): string {
    if parts == [] then ""
    else if |parts| == 1 then parts[0]
    else parts[0] + sep + Join(parts[1..], sep)
  }

  /** `FinalResult` of src/types/interview.ts; `overallTenths` is `overall_score * 10`. */
  datatype FinalResult = FinalResult(
    overallTenths: int,
    level: Level,
    summary: Summary,
    strongAreas: seq<Topic>,
    weakAreas: seq<Topic>,
    recommendations: seq<Recommendation>)

  /** `scores.reduce((a, b) => a + b, 0)` */
  function Sum(scores: seq<int>): int {
    if scores == [] then 0 else Sum(scores[..|scores| - 1]) + scores[|scores| - 1]
  }

  /**
    `Math.round(sum / n * 10)`: the mean in tenths, rounded to the nearest
    tenth with halves up.
   */
  function OverallTenths(scores: seq<int>): int
    requires |scores| > 0
  {
    var n := |scores|;
    (20 * Sum(scores) + n) / (2 * n)
  }

  /** The overall score in tenths is within half a tenth of the mean: `t - 0.5 <= 10 * s / n < t + 0.5`. */
  lemma OverallTenthsRounds(scores: seq<int>)
    requires |scores| > 0
    ensures var n, s, t := |scores|, Sum(scores), OverallTenths(scores);
      2 * n * t - n <= 20 * s < 2 * n * t + n
  {
    var n, s, t := |scores|, Sum(scores), OverallTenths(scores);
    var r := (20 * s + n) % (2 * n);
    assert 20 * s + n == 2 * n * t + r && 0 <= r < 2 * n;
  }

  /** `overall_score >= 7.5` is Strong, `>= 5` Intermediate, otherwise Beginner. */
  function LevelOf(tenths: int): Level {
    if tenths >= 75 then Strong else if tenths >= 50 then Intermediate else Beginner
  }

  function SummaryOf(level: Level): Summary {
    match level
    case Strong => SolidKnowledge
    case Intermediate => GoodFoundation
    case Beginner => RightTrack
  }

  /** Where a single score puts its topic: `>= 7` strong, `< 5` weak, otherwise neither. */
  datatype Band = StrongBand | MiddleBand | WeakBand

  function BandOf(score: int): Band {
    if score >= 7 then StrongBand else if score < 5 then WeakBand else MiddleBand
  }

  /** The positions whose score falls in `band`, in increasing order. */
  function IndicesIn(scores: seq<int>, band: Band): (r: seq<nat>)
    ensures forall k :: 0 <= k < |r| ==> r[k] < |scores|
  {
    if scores == [] then []
    else
      var n := |scores| - 1;
      IndicesIn(scores[..n], band) + (if BandOf(scores[n]) == band then [n] else [])
  }

  /** A position is listed exactly when its score falls in the band. */
  lemma {:induction false} InIndicesIn(scores: seq<int>, band: Band, i: nat)
    ensures i in IndicesIn(scores, band) <==> i < |scores| && BandOf(scores[i]) == band
  {
    if scores != [] {
      var n := |scores| - 1;
      InIndicesIn(scores[..n], band, i);
      if i < n {
        assert scores[..n][i] == scores[i];
      }
    }
  }

  predicate Increasing(r: seq<nat>) {
    forall k, l :: 0 <= k < l < |r| ==> r[k] < r[l]
  }

  /** The positions are listed in increasing order. */
  lemma {:induction false} IndicesInIncreasing(scores: seq<int>, band: Band)
    ensures Increasing(IndicesIn(scores, band))
  {
    if scores != [] {
      var n := |scores| - 1;
      IndicesInIncreasing(scores[..n], band);
      var init, r := IndicesIn(scores[..n], band), IndicesIn(scores, band);
      assert r == init + (if BandOf(scores[n]) == band then [n] else []);
      forall k, l | 0 <= k < l < |r| ensures r[k] < r[l] {
        assert r[k] == init[k];
        if l < |init| {
          assert r[l] == init[l] && init[k] < init[l];
        } else {
          assert r[l] == n && init[k] < n;
        }
      }
    }
  }

  /** A topic is among those of some positions exactly when its own position is one of them. */
  lemma TopicInTopicsAt(indices: seq<nat>, i: nat)
    requires forall k :: 0 <= k < |indices| ==> indices[k] < |Topics|
    requires i < |Topics|
    ensures Topics[i] in TopicsAt(indices) <==> i in indices
  {
    if Topics[i] in TopicsAt(indices) {
      var k :| 0 <= k < |indices| && TopicsAt(indices)[k] == Topics[i];
      TopicIndexUnique(indices[k], i);
    }
    if i in indices {
      var k :| 0 <= k < |indices| && indices[k] == i;
      assert TopicsAt(indices)[k] == Topics[i];
    }
  }

  /** The topics of the given positions. */
  function TopicsAt(indices: seq<nat>): (r: seq<Topic>)
    requires forall k :: 0 <= k < |indices| ==> indices[k] < |Topics|
    ensures |r| == |indices|
    ensures forall k :: 0 <= k < |indices| ==> r[k] == Topics[indices[k]]
  {
    seq(|indices|, k requires 0 <= k < |indices| => Topics[indices[k]])
  }

  function StrongAreas(scores: seq<int>): seq<Topic>
    requires |scores| <= |Topics|
  {
    TopicsAt(IndicesIn(scores, StrongBand))
  }

  function WeakAreas(scores: seq<int>): seq<Topic>
    requires |scores| <= |Topics|
  {
    TopicsAt(IndicesIn(scores, WeakBand))
  }

  function Recommendations(weak: seq<Topic>, level: Level): seq<Recommendation> {
    (if |weak| > 0 then [FocusOn(weak)] else [])
      + [PracticeProjects, ReviewDocumentation]
      + (if level != Strong then [TakeCourses] else [])
  }

  /** `calculateFinalResult(scores)`, as a value. */
  function FinalReport(scores: seq<int>): FinalResult
    requires 0 < |scores| <= |Topics|
  {
    var tenths := OverallTenths(scores);
    var level := LevelOf(tenths);
    var weak := WeakAreas(scores);
    FinalResult(tenths, level, SummaryOf(level), StrongAreas(scores), weak, Recommendations(weak, level))
  }

  lemma TopicsAtSnoc(indices: seq<nat>, i: nat)
    requires forall k :: 0 <= k < |indices| ==> indices[k] < |Topics|
    requires i < |Topics|
    ensures TopicsAt(indices + [i]) == TopicsAt(indices) + [Topics[i]]
  {
  }

  /** One more score files its topic in its band and leaves the earlier topics as they were. */
  lemma AreasStep(scores: seq<int>, i: nat, band: Band)
    requires i < |scores| <= |Topics|
    ensures TopicsAt(IndicesIn(scores[..i + 1], band)) ==
      TopicsAt(IndicesIn(scores[..i], band)) + (if BandOf(scores[i]) == band then [Topics[i]] else [])
  {
    assert scores[..i + 1][..i] == scores[..i];
    TopicsAtSnoc(IndicesIn(scores[..i], band), i);
  }

  /**
    `calculateFinalResult`: the mean, the level, then the `forEach` over the
    scores that files each topic as strong or weak, then the recommendations
    and the summary.
   */
  method CalculateFinalResult(scores: seq<int>) returns (r: FinalResult)
    requires 0 < |scores| <= |Topics|
    ensures r == FinalReport(scores)
  {
    var overall := OverallTenths(scores);
    var level := LevelOf(overall);
    var strong: seq<Topic> := [];
    var weak: seq<Topic> := [];
    for i := 0 to |scores|
      invariant strong == TopicsAt(IndicesIn(scores[..i], StrongBand))
      invariant weak == TopicsAt(IndicesIn(scores[..i], WeakBand))
    {
      AreasStep(scores, i, StrongBand);
      AreasStep(scores, i, WeakBand);
      if scores[i] >= 7 {
        strong := strong + [Topics[i]];
      } else if scores[i] < 5 {
        weak := weak + [Topics[i]];
      }
    }
    assert scores[..|scores|] == scores;
    var recommendations: seq<Recommendation> := [];
    if |weak| > 0 {
      recommendations := recommendations + [FocusOn(weak)];
    }
    recommendations := recommendations + [PracticeProjects];
    recommendations := recommendations + [ReviewDocumentation];
    if level != Strong {
      recommendations := recommendations + [TakeCourses];
    }
    r := FinalResult(overall, level, SummaryOf(level), strong, weak, recommendations);
  }

  /** Topic `i` is a strong area iff its score is at least 7, and a weak area iff it is below 5. */
  lemma AreaMembership(scores: seq<int>, i: nat)
    requires |scores| <= |Topics| && i < |scores|
    ensures Topics[i] in StrongAreas(scores) <==> scores[i] >= 7
    ensures Topics[i] in WeakAreas(scores) <==> scores[i] < 5
  {
    InIndicesIn(scores, StrongBand, i);
    TopicInTopicsAt(IndicesIn(scores, StrongBand), i);
    InIndicesIn(scores, WeakBand, i);
    TopicInTopicsAt(IndicesIn(scores, WeakBand), i);
  }

  lemma TopicIndexUnique(i: nat, j: nat)
    requires i < |Topics| && j < |Topics| && Topics[i] == Topics[j]
    ensures i == j
  {
  }

  /** Different topics have different labels: a label names one topic. */
  lemma TopicLabelInjective(t: Topic, u: Topic)
    requires TopicLabel(t) == TopicLabel(u)
    ensures t == u
  {
    assert |TopicLabel(t)| == |TopicLabel(u)| && TopicLabel(t)[0] == TopicLabel(u)[0];
  }

  /** The ten topic labels are pairwise distinct. */
  lemma TopicLabelsDistinct(i: nat, j: nat)
    requires i < |Topics| && j < |Topics| && TopicLabel(Topics[i]) == TopicLabel(Topics[j])
    ensures i == j
  {
    TopicLabelInjective(Topics[i], Topics[j]);
    TopicIndexUnique(i, j);
  }

  /** `areas.includes(label)`: the label of some listed topic is `label`. */
  lemma LabelIn(areas: seq<Topic>, t: Topic)
    ensures TopicLabel(t) in Labels(areas) <==> t in areas
  {
    if TopicLabel(t) in Labels(areas) {
      var k :| 0 <= k < |areas| && Labels(areas)[k] == TopicLabel(t);
      TopicLabelInjective(areas[k], t);
    }
    if t in areas {
      var k :| 0 <= k < |areas| && areas[k] == t;
      assert Labels(areas)[k] == TopicLabel(t);
    }
  }

  /**
    The report's areas are label strings in the source: the label of topic
    `i` is among the strong labels exactly when its score is at least 7, and
    among the weak labels exactly when it is below 5.
   */
  lemma AreaLabelMembership(scores: seq<int>, i: nat)
    requires |scores| <= |Topics| && i < |scores|
    ensures TopicLabel(Topics[i]) in Labels(StrongAreas(scores)) <==> scores[i] >= 7
    ensures TopicLabel(Topics[i]) in Labels(WeakAreas(scores)) <==> scores[i] < 5
  {
    AreaMembership(scores, i);
    LabelIn(StrongAreas(scores), Topics[i]);
    LabelIn(WeakAreas(scores), Topics[i]);
  }

  /**
    The strong and weak areas are disjoint, and each lists its topics in
    question order (the positions behind them increase).
   */
  lemma AreasDisjointAndOrdered(scores: seq<int>)
    requires |scores| <= |Topics|
    ensures forall t :: t in StrongAreas(scores) ==> t !in WeakAreas(scores)
    ensures StrongAreas(scores) == TopicsAt(IndicesIn(scores, StrongBand))
    ensures WeakAreas(scores) == TopicsAt(IndicesIn(scores, WeakBand))
    ensures Increasing(IndicesIn(scores, StrongBand)) && Increasing(IndicesIn(scores, WeakBand))
  {
    forall t | t in StrongAreas(scores) ensures t !in WeakAreas(scores) {
      var strong := IndicesIn(scores, StrongBand);
      var k :| 0 <= k < |strong| && StrongAreas(scores)[k] == t;
      AreaMembership(scores, strong[k]);
    }
    IndicesInIncreasing(scores, StrongBand);
    IndicesInIncreasing(scores, WeakBand);
  }

  /**
    The recommendations: the two fixed entries, preceded by the "Focus on
    improving" entry exactly when there are weak areas, and followed by one
    more exactly when the level is not Strong.
   */
  lemma RecommendationsShape(scores: seq<int>)
    requires 0 < |scores| <= |Topics|
    ensures var r := FinalReport(scores);
      && |r.recommendations| == 2 + (if r.weakAreas != [] then 1 else 0) + (if r.level != Strong then 1 else 0)
      && (r.weakAreas != [] <==> r.recommendations[0].FocusOn?)
      && (r.weakAreas != [] ==> r.recommendations[0] == FocusOn(r.weakAreas))
      && (r.level != Strong <==> r.recommendations[|r.recommendations| - 1] == TakeCourses)
  {
  }

  /** The summary is fixed by the level alone, and tells the levels apart. */
  lemma SummaryByLevel(scores: seq<int>, scores': seq<int>)
    requires 0 < |scores| <= |Topics| && 0 < |scores'| <= |Topics|
    ensures FinalReport(scores).summary == FinalReport(scores').summary <==>
      FinalReport(scores).level == FinalReport(scores').level
  {
  }

  lemma MulMonotone(n: nat, a: int, b: int)
    requires a <= b
    ensures 2 * n * a <= 2 * n * b
  {
    assert 2 * n * b - 2 * n * a == 2 * n * (b - a);
  }

  /**
    The level read off the raw mean `sum / n`: Strong iff the mean is at least
    7.45 and Beginner iff it is below 4.95 (rounding to one decimal moves both
    thresholds down by half a tenth).
   */
  lemma LevelFromMean(scores: seq<int>)
    requires |scores| > 0
    ensures var n, s := |scores|, Sum(scores);
      && (LevelOf(OverallTenths(scores)) == Strong <==> 20 * s >= 149 * n)
      && (LevelOf(OverallTenths(scores)) == Beginner <==> 20 * s < 99 * n)
  {
    var n, s, t := |scores|, Sum(scores), OverallTenths(scores);
    OverallTenthsRounds(scores);
    if t >= 75 {
      MulMonotone(n, 75, t);
    } else {
      MulMonotone(n, t, 74);
    }
    if t >= 50 {
      MulMonotone(n, 50, t);
    } else {
      MulMonotone(n, t, 49);
    }
  }

  lemma {:induction false} SumBounds(scores: seq<int>, lo: int, hi: int)
    requires forall i :: 0 <= i < |scores| ==> lo <= scores[i] <= hi
    ensures |scores| * lo <= Sum(scores) <= |scores| * hi
  {
    if scores != [] {
      var init := scores[..|scores| - 1];
      SumBounds(init, lo, hi);
      assert |scores| * lo == |init| * lo + lo;
      assert |scores| * hi == |init| * hi + hi;
    }
  }

  /** Scores of 1 to 10 give an overall score between 1.0 and 10.0. */
  lemma OverallWithinScoreRange(scores: seq<int>)
    requires |scores| > 0
    requires forall i :: 0 <= i < |scores| ==> 1 <= scores[i] <= 10
    ensures 10 <= OverallTenths(scores) <= 100
  {
    var n, t := |scores|, OverallTenths(scores);
    SumBounds(scores, 1, 10);
    OverallTenthsRounds(scores);
    if t < 10 {
      MulMonotone(n, t, 9);
    } else if t > 100 {
      MulMonotone(n, 101, t);
    }
  }

  /** When every score falls in `band`, all positions are listed, in order. */
  lemma {:induction false} AllIndices(scores: seq<int>, band: Band)
    requires forall i :: 0 <= i < |scores| ==> BandOf(scores[i]) == band
    ensures IndicesIn(scores, band) == seq(|scores|, i => i)
  {
    if scores != [] {
      var n := |scores| - 1;
      AllIndices(scores[..n], band);
      assert seq(n, i => i) + [n] == seq(|scores|, i => i);
    }
  }

  /** Ten perfect scores: 10.0, Strong, every topic strong, no weak area, two recommendations. */
  lemma AllTens()
    ensures var r := FinalReport(seq(10, _ => 10));
      && r.overallTenths == 100 && r.level == Strong
      && r.strongAreas == Topics && r.weakAreas == []
      && r.recommendations == [PracticeProjects, ReviewDocumentation]
  {
    var scores := seq(10, _ => 10);
    SumBounds(scores, 10, 10);
    AllIndices(scores, StrongBand);
    assert StrongAreas(scores) == Topics;
    NoIndices(scores, WeakBand);
  }

  /** Ten minimal scores: 1.0, Beginner, every topic weak, four recommendations. */
  lemma AllOnes()
    ensures var r := FinalReport(seq(10, _ => 1));
      && r.overallTenths == 10 && r.level == Beginner
      && r.strongAreas == [] && r.weakAreas == Topics
      && r.recommendations == [FocusOn(Topics), PracticeProjects, ReviewDocumentation, TakeCourses]
  {
    var scores := seq(10, _ => 1);
    SumBounds(scores, 1, 1);
    AllIndices(scores, WeakBand);
    assert WeakAreas(scores) == Topics;
    NoIndices(scores, StrongBand);
  }

  /** When no score falls in `band`, no position is listed. */
  lemma {:induction false} NoIndices(scores: seq<int>, band: Band)
    requires forall i :: 0 <= i < |scores| ==> BandOf(scores[i]) != band
    ensures IndicesIn(scores, band) == []
  {
    if scores != [] {
      var n := |scores| - 1;
      NoIndices(scores[..n], band);
    }
  }
}
