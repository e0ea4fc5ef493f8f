/** The scores an interview's answers receive, question by question. */
module Scoring {
  import Q = Questions

  /** `f` applied to each element of `xs` together with its position. */
  function MapIndexed<T, U>(f: (int, T) -> U, xs: seq<T>): seq<U>
    decreases |xs|
  {
    if xs == [] then []
    else
      var n := |xs| - 1;
      MapIndexed(f, xs[..n]) + [f(n, xs[n])]
  }

  /** Extending a prefix of `xs` by one element appends that element's image. */
  lemma MapIndexedPrefix<T, U>(f: (int, T) -> U, xs: seq<T>, i: nat)
    requires i < |xs|
    ensures MapIndexed(f, xs[..i + 1]) == MapIndexed(f, xs[..i]) + [f(i, xs[i])]
  {
    assert xs[..i + 1][..i] == xs[..i];
  }

  lemma {:induction false} MapIndexedPointwise<T, U>(f: (int, T) -> U, xs: seq<T>)
    ensures |MapIndexed(f, xs)| == |xs|
    ensures forall i :: 0 <= i < |xs| ==> MapIndexed(f, xs)[i] == f(i, xs[i])
  {
    if xs != [] {
      var n := |xs| - 1;
      MapIndexedPointwise(f, xs[..n]);
      assert forall i :: 0 <= i < n ==> xs[..n][i] == xs[i];
    }
  }

  /** The score the answer given to question `i` receives. */
  function Score(i: int, answer: string): int {
    Q.EvaluateAnswer(i, answer).score
  }
}

/**
  The interview page: seven pieces of state and the four handlers that move
  between the phases welcome → question → feedback → results. The one-second
  delay before an answer is evaluated is modelled as a separate step,
  `CompleteSubmission`, that the timer runs.
 */
module Interview {
  import opened Optional
  import opened Strings
  import Q = Questions
  import opened Scoring

  datatype Phase = Welcome | Question | Feedback | Results

  class Session {
    var phase: Phase
    var currentQuestion: int
    var answer: string
    var isLoading: bool
    /**
      The answer the pending timer evaluates: its closure captures `answer`
      when `handleSubmit` runs, and later edits do not reach it.
     */
    var submitted: string
    var currentEvaluation: Option<Q.Evaluation>
    var scores: seq<int>
    var finalResult: Option<Q.FinalResult>

    /**
      The page's invariant: the question index is always in range, an
      evaluation is pending only for a non-blank submitted answer on the
      question view,
      each phase fixes how many scores there are, and the feedback shown is
      the one for the last score.
     */
    ghost predicate Valid()
      reads this
    {
      && 0 <= currentQuestion < Q.QuestionCount
      && (isLoading ==> phase == Question && Trim(submitted) != [])
      && match phase
        case Welcome =>
          currentQuestion == 0 && scores == [] && answer == [] && currentEvaluation == None && finalResult == None
        case Question =>
          |scores| == currentQuestion && currentEvaluation == None && finalResult == None
        case Feedback =>
          && |scores| == currentQuestion + 1
          && currentEvaluation.Some? && currentEvaluation.value.score == scores[currentQuestion]
          && finalResult == None
        case Results =>
          |scores| == Q.QuestionCount && currentQuestion == Q.QuestionCount - 1 && finalResult.Some?
    }

    /** The page as first rendered. */
    constructor ()
      ensures Valid()
      ensures phase == Welcome && currentQuestion == 0 && answer == "" && !isLoading && submitted == ""
      ensures currentEvaluation == None && scores == [] && finalResult == None
    {
      phase := Welcome;
      currentQuestion := 0;
      answer := "";
      isLoading := false;
      submitted := "";
      currentEvaluation := None;
      scores := [];
      finalResult := None;
    }

    /**
      The question the question and feedback views show: the index is in range
      in both phases.
     */
    function QuestionShown(): (q: Q.Question)
      reads this
      requires Valid() && (phase == Question || phase == Feedback)
      ensures q in Q.InterviewQuestions
    {
      Q.InterviewQuestions[currentQuestion]
    }

    /** `handleStart`, run by the welcome screen's start button. */
    method Start()
      requires Valid() && phase == Welcome
      modifies this
      ensures Valid()
      ensures phase == Question && currentQuestion == 0 && scores == [] && answer == ""
      ensures isLoading == old(isLoading) && submitted == old(submitted)
      ensures currentEvaluation == old(currentEvaluation) && finalResult == old(finalResult)
    {
      phase := Question;
      currentQuestion := 0;
      scores := [];
      answer := "";
    }

    /**
      `setAnswer`, called by the answer box's `onChange` and by the effect
      that copies each new transcript into the answer. The effect runs even
      while an evaluation is pending, so this may happen with `isLoading` set.
     */
    method SetAnswer(text: string)
      requires Valid() && phase == Question
      modifies this
      ensures Valid()
      ensures answer == text
      ensures phase == old(phase) && currentQuestion == old(currentQuestion) && isLoading == old(isLoading)
      ensures submitted == old(submitted)
      ensures currentEvaluation == old(currentEvaluation) && scores == old(scores)
      ensures finalResult == old(finalResult)
    {
      answer := text;
    }

    /**
      `handleSubmit`: a blank answer is ignored; otherwise the evaluation is
      started and the timer captures the answer. The submit button, and the
      answer box that takes Ctrl+Enter, are disabled while one is pending.
     */
    method Submit()
      requires Valid() && phase == Question && !isLoading
      modifies this
      ensures Valid()
      ensures isLoading <==> !IsBlank(old(answer))
      ensures submitted == if isLoading then old(answer) else old(submitted)
      ensures phase == old(phase) && currentQuestion == old(currentQuestion) && answer == old(answer)
      ensures currentEvaluation == old(currentEvaluation) && scores == old(scores)
      ensures finalResult == old(finalResult)
    {
      TrimEmptyIffBlank(answer);
      if Trim(answer) == "" {
        return;
      }
      isLoading := true;
      submitted := answer;
    }

    /**
      The body of `handleSubmit`'s timer: the answer captured at submission
      is evaluated against the current question, its score appended and the
      feedback shown. The answer box may have changed since; it is kept.
     */
    method CompleteSubmission()
      requires Valid() && isLoading
      modifies this
      ensures Valid()
      ensures var e := Q.EvaluateAnswer(old(currentQuestion), old(submitted));
        && currentEvaluation == Some(e)
        && scores == old(scores) + [e.score]
        && !isLoading && phase == Feedback
      ensures currentQuestion == old(currentQuestion) && answer == old(answer) && submitted == old(submitted)
      ensures finalResult == old(finalResult)
    {
      var evaluation := Q.EvaluateAnswer(currentQuestion, submitted);
      currentEvaluation := Some(evaluation);
      scores := scores + [evaluation.score];
      isLoading := false;
      phase := Feedback;
    }

    /**
      `handleNext`, run by the feedback card's button: after the last question
      the final report is computed from all scores, otherwise the next
      question is asked.
     */
    method Next()
      requires Valid() && phase == Feedback
      modifies this
      ensures Valid()
      ensures old(currentQuestion) >= Q.QuestionCount - 1 ==>
        && phase == Results && finalResult == Some(Q.FinalReport(old(scores)))
        && |scores| == Q.QuestionCount
        && currentQuestion == old(currentQuestion) && answer == old(answer)
        && currentEvaluation == old(currentEvaluation)
      ensures old(currentQuestion) < Q.QuestionCount - 1 ==>
        && phase == Question && currentQuestion == old(currentQuestion) + 1
        && answer == "" && currentEvaluation == None && finalResult == old(finalResult)
      ensures scores == old(scores) && isLoading == old(isLoading) && submitted == old(submitted)
    {
      if currentQuestion >= Q.QuestionCount - 1 {
        var result := Q.CalculateFinalResult(scores);
        finalResult := Some(result);
        phase := Results;
      } else {
        currentQuestion := currentQuestion + 1;
        answer := "";
        currentEvaluation := None;
        phase := Question;
      }
    }

    /** `handleRestart`, run by the results card's button: back to the first page. */
    method Restart()
      requires Valid() && phase == Results
      modifies this
      ensures Valid()
      ensures phase == Welcome && currentQuestion == 0 && answer == "" && scores == []
      ensures currentEvaluation == None && finalResult == None
      ensures isLoading == old(isLoading) && submitted == old(submitted)
    {
      phase := Welcome;
      currentQuestion := 0;
      answer := "";
      scores := [];
      currentEvaluation := None;
      finalResult := None;
    }
  }

  /**
    One round of the interview: the answer is typed and submitted, the
    evaluation completes and the candidate moves on. The score of the answer
    is appended; after the last question the report is shown.
   */
  method AnswerQuestion(session: Session, text: string)
    requires session.Valid() && session.phase == Question && !session.isLoading && !IsBlank(text)
    modifies session
    ensures session.Valid() && !session.isLoading
    ensures session.scores == old(session.scores) + [Score(old(session.currentQuestion), text)]
    ensures old(session.currentQuestion) < Q.QuestionCount - 1 ==>
      session.phase == Question && session.currentQuestion == old(session.currentQuestion) + 1
    ensures old(session.currentQuestion) == Q.QuestionCount - 1 ==>
      session.phase == Results && session.finalResult == Some(Q.FinalReport(session.scores))
  {
    session.SetAnswer(text);
    session.Submit();
    session.CompleteSubmission();
    session.Next();
  }

  /**
    A transcript that arrives while the evaluation is pending replaces the
    answer shown, but the score is still that of the answer submitted.
   */
  method TranscriptWhileEvaluating(session: Session, text: string, late: string)
    requires session.Valid() && session.phase == Question && !session.isLoading && !IsBlank(text)
    modifies session
    ensures session.Valid() && session.phase == Feedback
    ensures session.scores == old(session.scores) + [Score(old(session.currentQuestion), text)]
    ensures session.answer == late
  {
    session.SetAnswer(text);
    session.Submit();
    session.SetAnswer(late);
    session.CompleteSubmission();
  }

  /**
    A whole interview: start, then for each question type a non-blank answer,
    submit it, let the evaluation complete and go on. The results phase is
    reached with exactly one score per question, each the evaluation of the
    answer given to it, and the report is computed from those ten scores.
   */
  method RunInterview(answers: seq<string>) returns (scores: seq<int>, result: Q.FinalResult)
    requires |answers| == Q.QuestionCount
    requires forall i :: 0 <= i < |answers| ==> !IsBlank(answers[i])
    ensures |scores| == Q.QuestionCount
    ensures forall i :: 0 <= i < |answers| ==> scores[i] == Score(i, answers[i])
    ensures result == Q.FinalReport(scores)
  {
    var session := new Session();
    session.Start();
    var i := 0;
    while i < Q.QuestionCount
      invariant 0 <= i <= Q.QuestionCount
      invariant session.Valid()
      invariant i < Q.QuestionCount ==> session.phase == Question && session.currentQuestion == i && !session.isLoading
      invariant i == Q.QuestionCount ==> session.phase == Results && session.finalResult == Some(Q.FinalReport(session.scores))
      invariant session.scores == MapIndexed(Score, answers[..i])
    {
      AnswerQuestion(session, answers[i]);
      MapIndexedPrefix(Score, answers, i);
      i := i + 1;
    }
    assert answers[..i] == answers;
    MapIndexedPointwise(Score, answers);
    scores := session.scores;
    result := session.finalResult.value;
  }
}
