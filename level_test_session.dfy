/**
 * The level-test page: five open questions answered one at a time, navigation between
 * them, and the submission of all non-blank answers as one text to the evaluator.
 */
module LevelTestSession {
  import opened Wrappers
  import opened Text
  import opened Cefr
  import opened LevelTestApi
  import opened UserStore

  datatype Question = Question(id: string, text: string)

  const Questions: seq<Question> := [
    Question("1", "Tell me about yourself. What are your hobbies and interests?"),
    Question("2", "Describe your typical day. What do you usually do from morning to evening?"),
    Question("3", "What is your favorite book or movie? Why do you like it?"),
    Question("4", "If you could travel anywhere in the world, where would you go and why?"),
    Question("5", "What are your goals for learning English? How do you plan to achieve them?")
  ]

  const EmptyAnswersAlert := "Please answer at least one question before submitting."
  const EvaluationFailedAlert := "Failed to evaluate test. Please try again."

  datatype TestState = NotStarted | InProgress | Completed | Results

  /** `answers[id] || ''`. */
  function AnswerOf(answers: map<string, string>, id: string): string {
    if id in answers then answers[id] else ""
  }

  /** The stored answers in question order, a missing one as the empty string. */
  function AnswerTexts(questions: seq<Question>, answers: map<string, string>): (r: seq<string>)
    ensures |r| == |questions|
    ensures forall k :: 0 <= k < |r| ==> r[k] == AnswerOf(answers, questions[k].id)
  {
    seq(|questions|, k requires 0 <= k < |questions| => AnswerOf(answers, questions[k].id))
  }

  /** `filter(a => a.trim().length > 0)`: the non-blank texts, in their order. */
  function NonBlank(xs: seq<string>): (r: seq<string>)
    ensures |r| <= |xs|
    ensures forall k :: 0 <= k < |r| ==> !IsBlank(r[k])
    ensures forall k :: 0 <= k < |xs| && !IsBlank(xs[k]) ==> xs[k] in r
    ensures forall s :: s in r ==> s in xs
  {
    if |xs| == 0 then []
    else if IsBlank(xs[0]) then NonBlank(xs[1..])
    else [xs[0]] + NonBlank(xs[1..])
  }

  /** Filtering distributes over concatenation, so the kept answers stay in question order. */
  lemma {:induction false} NonBlankAppend(xs: seq<string>, ys: seq<string>)
    ensures NonBlank(xs + ys) == NonBlank(xs) + NonBlank(ys)
  {
    if |xs| > 0 {
      assert (xs + ys)[1..] == xs[1..] + ys;
      NonBlankAppend(xs[1..], ys);
    } else {
      assert xs + ys == ys;
    }
  }

  /** Texts that are all non-blank are kept as they are. */
  lemma {:induction false} NonBlankKeepsAll(xs: seq<string>)
    requires forall k :: 0 <= k < |xs| ==> !IsBlank(xs[k])
    ensures NonBlank(xs) == xs
  {
    if |xs| > 0 {
      NonBlankKeepsAll(xs[1..]);
    }
  }

  /**
   * The text submitted for evaluation: the non-blank answers in question order, space separated.
   * It is blank exactly when no question has a non-blank answer.
   */
  function CombineAnswers(questions: seq<Question>, answers: map<string, string>): (r: string)
    ensures IsBlank(r) <==> forall k :: 0 <= k < |questions| ==> IsBlank(AnswerOf(answers, questions[k].id))
  {
    JoinNonBlankIsBlank(AnswerTexts(questions, answers));
    Join(NonBlank(AnswerTexts(questions, answers)), " ")
  }

  /** Joining texts with a blank separator gives a blank text exactly when every text is blank. */
  lemma {:induction false} JoinBlank(parts: seq<string>, sep: string)
    requires IsBlank(sep)
    ensures IsBlank(Join(parts, sep)) <==> forall k :: 0 <= k < |parts| ==> IsBlank(parts[k])
  {
    if |parts| > 1 {
      JoinBlank(parts[1..], sep);
      var j := Join(parts, sep);
      assert j == parts[0] + sep + Join(parts[1..], sep);
      if IsBlank(j) {
        forall k | 0 <= k < |parts| ensures IsBlank(parts[k]) {
          if k == 0 {
            forall i | 0 <= i < |parts[0]| ensures IsSpace(parts[0][i]) {
              assert j[i] == parts[0][i];
            }
          } else {
            assert parts[k] == parts[1..][k - 1];
            forall i | 0 <= i < |Join(parts[1..], sep)| ensures IsSpace(Join(parts[1..], sep)[i]) {
              assert j[|parts[0]| + |sep| + i] == Join(parts[1..], sep)[i];
            }
          }
        }
      }
      if forall k :: 0 <= k < |parts| ==> IsBlank(parts[k]) {
        assert forall k :: 0 <= k < |parts[1..]| ==> IsBlank(parts[1..][k]);
        assert IsBlank(parts[0]);
        forall i | 0 <= i < |j| ensures IsSpace(j[i]) {
          if i < |parts[0]| {
            assert j[i] == parts[0][i];
          } else if i < |parts[0]| + |sep| {
            assert j[i] == sep[i - |parts[0]|];
          } else {
            assert j[i] == Join(parts[1..], sep)[i - |parts[0]| - |sep|];
          }
        }
      }
    }
  }

  /** Joining the non-blank texts gives a blank text exactly when every text is blank. */
  lemma JoinNonBlankIsBlank(xs: seq<string>)
    ensures IsBlank(Join(NonBlank(xs), " ")) <==> forall k :: 0 <= k < |xs| ==> IsBlank(xs[k])
  {
    var kept := NonBlank(xs);
    JoinBlank(kept, " ");
    if !forall k :: 0 <= k < |xs| ==> IsBlank(xs[k]) {
      var k :| 0 <= k < |xs| && !IsBlank(xs[k]);
      assert xs[k] in kept;
    }
  }

  /** When every question has a non-blank answer, the text is all of them in question order. */
  lemma AllAnsweredCombined(questions: seq<Question>, answers: map<string, string>)
    requires forall k :: 0 <= k < |questions| ==> !IsBlank(AnswerOf(answers, questions[k].id))
    ensures CombineAnswers(questions, answers) == Join(AnswerTexts(questions, answers), " ")
  {
    NonBlankKeepsAll(AnswerTexts(questions, answers));
  }

  class LevelTestPage {
    /** The sample questions, in the order they are asked. */
    const questions: seq<Question>
    var testState: TestState
    var currentQuestionIndex: nat
    var answers: map<string, string>
    var currentAnswer: string
    var isEvaluating: bool
    var testResult: Option<LevelTestResult>

    /** The shown question always exists. */
    predicate Valid()
      reads this
    {
      0 < |questions| && currentQuestionIndex < |questions|
    }

    function IsLastQuestion(): bool
      reads this
    {
      currentQuestionIndex == |questions| - 1
    }

    constructor()
      ensures Valid() && questions == Questions
      ensures testState == NotStarted && currentQuestionIndex == 0 && answers == map[]
      ensures currentAnswer == "" && !isEvaluating && testResult.None?
    {
      questions := Questions;
      testState := NotStarted;
      currentQuestionIndex := 0;
      answers := map[];
      currentAnswer := "";
      isEvaluating := false;
      testResult := None;
    }

    /** Start: in progress on the first question with no answers. */
    method StartTest()
      requires Valid()
      modifies this
      ensures Valid()
      ensures testState == InProgress && currentQuestionIndex == 0 && answers == map[] && currentAnswer == ""
      ensures isEvaluating == old(isEvaluating) && testResult == old(testResult)
    {
      testState := InProgress;
      currentQuestionIndex := 0;
      answers := map[];
      currentAnswer := "";
    }

    /** Restart: back to the start screen with everything cleared. */
    method RestartTest()
      requires Valid()
      modifies this
      ensures Valid()
      ensures testState == NotStarted && currentQuestionIndex == 0 && answers == map[] && currentAnswer == ""
      ensures testResult.None? && isEvaluating == old(isEvaluating)
    {
      testState := NotStarted;
      currentQuestionIndex := 0;
      answers := map[];
      currentAnswer := "";
      testResult := None;
    }

    /** Dictated text is appended after one space, or becomes the answer when there is none. */
    method VoiceText(text: string)
      modifies this
      ensures old(currentAnswer) != "" ==> currentAnswer == old(currentAnswer) + " " + text
      ensures old(currentAnswer) == "" ==> currentAnswer == text
      ensures testState == old(testState) && currentQuestionIndex == old(currentQuestionIndex)
      ensures answers == old(answers) && isEvaluating == old(isEvaluating) && testResult == old(testResult)
    {
      if currentAnswer != "" {
        currentAnswer := currentAnswer + " " + text;
      } else {
        currentAnswer := text;
      }
    }

    /** Typing into the answer box replaces the current answer. */
    method EditAnswer(value: string)
      modifies this
      ensures currentAnswer == value
      ensures testState == old(testState) && currentQuestionIndex == old(currentQuestionIndex)
      ensures answers == old(answers) && isEvaluating == old(isEvaluating) && testResult == old(testResult)
    {
      currentAnswer := value;
    }

    /** The save effect: the current answer is stored under the shown question's id. */
    method SaveCurrentAnswer()
      requires Valid()
      modifies this
      ensures Valid()
      ensures answers == old(answers)[questions[currentQuestionIndex].id := currentAnswer]
      ensures AnswerOf(answers, questions[currentQuestionIndex].id) == currentAnswer
      ensures testState == old(testState) && currentQuestionIndex == old(currentQuestionIndex)
      ensures currentAnswer == old(currentAnswer) && isEvaluating == old(isEvaluating)
      ensures testResult == old(testResult)
    {
      answers := answers[questions[currentQuestionIndex].id := currentAnswer];
    }

    /** The load effect: while in progress, the shown question's stored answer becomes the current one. */
    method LoadSavedAnswer()
      requires Valid()
      modifies this
      ensures Valid()
      ensures old(testState) == InProgress ==> currentAnswer == AnswerOf(answers, questions[currentQuestionIndex].id)
      ensures old(testState) != InProgress ==> currentAnswer == old(currentAnswer)
      ensures testState == old(testState) && currentQuestionIndex == old(currentQuestionIndex)
      ensures answers == old(answers) && isEvaluating == old(isEvaluating) && testResult == old(testResult)
    {
      if testState == InProgress {
        currentAnswer := AnswerOf(answers, questions[currentQuestionIndex].id);
      }
    }

    /** "Previous": one question back with the answer box cleared; nothing happens on the first. */
    method PreviousQuestion()
      requires Valid()
      modifies this
      ensures Valid()
      ensures old(currentQuestionIndex) > 0 ==> currentQuestionIndex == old(currentQuestionIndex) - 1 && currentAnswer == ""
      ensures old(currentQuestionIndex) == 0 ==> currentQuestionIndex == 0 && currentAnswer == old(currentAnswer)
      ensures testState == old(testState) && answers == old(answers)
      ensures isEvaluating == old(isEvaluating) && testResult == old(testResult)
    {
      if currentQuestionIndex > 0 {
        currentAnswer := "";
        currentQuestionIndex := currentQuestionIndex - 1;
      }
    }

    /** The result handling of a submission: a result is shown and recorded, an error is alerted. */
    method ShowOutcome(outcome: Result<LevelTestResult, Failure>, users: UserState) returns (alert: Option<string>)
      modifies this, users
      ensures currentQuestionIndex == old(currentQuestionIndex)
      ensures answers == old(answers) && currentAnswer == old(currentAnswer) && isEvaluating == old(isEvaluating)
      ensures users.loading == old(users.loading)
      ensures outcome.Ok? ==>
                alert.None? && testState == Results && testResult == Some(outcome.value)
                && (old(users.user).Some? ==> users.user == Some(old(users.user).value.(cefrLevel := Some(outcome.value.level))))
                && (old(users.user).None? ==> users.user.None?)
      ensures outcome.Err? ==>
                alert == Some(EvaluationFailedAlert) && testState == old(testState)
                && testResult == old(testResult) && users.user == old(users.user)
    {
      if outcome.Ok? {
        testResult := Some(outcome.value);
        testState := Results;
        if users.user.Some? {
          users.UpdateCefrLevel(Some(outcome.value.level));
        }
        alert := None;
      } else {
        alert := Some(EvaluationFailedAlert);
      }
    }

    /**
     * Submission: the combined answers go to the evaluator unless they are blank; a result
     * moves the page to the results screen and records the level on the signed-in user.
     */
    method SubmitTest(server: string -> FetchOutcome, users: UserState) returns (alert: Option<string>)
      requires Valid()
      modifies this, users
      ensures Valid()
      ensures !isEvaluating
      ensures currentQuestionIndex == old(currentQuestionIndex) && answers == old(answers)
      ensures currentAnswer == old(currentAnswer) && users.loading == old(users.loading)
      ensures Trim(CombineAnswers(questions, answers)) == "" ==>
                alert == Some(EmptyAnswersAlert) && testState == old(testState)
                && testResult == old(testResult) && users.user == old(users.user)
      ensures var text := CombineAnswers(questions, answers);
              Trim(text) != "" && EvaluateAnswer(server(text)).Ok? ==>
                var v := EvaluateAnswer(server(text)).value;
                alert.None? && testState == Results && testResult == Some(v)
                && (old(users.user).Some? ==> users.user == Some(old(users.user).value.(cefrLevel := Some(v.level))))
                && (old(users.user).None? ==> users.user.None?)
      ensures var text := CombineAnswers(questions, answers);
              Trim(text) != "" && EvaluateAnswer(server(text)).Err? ==>
                alert == Some(EvaluationFailedAlert) && testState == old(testState)
                && testResult == old(testResult) && users.user == old(users.user)
    {
      isEvaluating := true;
      var allAnswers := CombineAnswers(questions, answers);
      if Trim(allAnswers) == "" {
        isEvaluating := false;
        return Some(EmptyAnswersAlert);
      }
      alert := ShowOutcome(EvaluateAnswer(server(allAnswers)), users);
      isEvaluating := false;
    }

    /** "Next": on the last question it submits; otherwise one question on with the answer box cleared. */
    method NextQuestion(server: string -> FetchOutcome, users: UserState) returns (alert: Option<string>)
      requires Valid()
      modifies this, users
      ensures Valid()
      ensures answers == old(answers)
      ensures !old(IsLastQuestion()) ==>
                currentQuestionIndex == old(currentQuestionIndex) + 1 && currentAnswer == "" && alert.None?
                && testState == old(testState) && testResult == old(testResult)
                && isEvaluating == old(isEvaluating) && users.user == old(users.user)
      ensures users.loading == old(users.loading)
      ensures old(IsLastQuestion()) ==>
                currentQuestionIndex == old(currentQuestionIndex) && !isEvaluating && currentAnswer == old(currentAnswer)
                && (Trim(CombineAnswers(questions, answers)) == "" <==> alert == Some(EmptyAnswersAlert))
                && (testState == Results <==>
                      (old(testState) == Results
                       || (Trim(CombineAnswers(questions, answers)) != "" && EvaluateAnswer(server(CombineAnswers(questions, answers))).Ok?)))
      ensures old(IsLastQuestion()) && Trim(CombineAnswers(questions, answers)) == "" ==>
                alert == Some(EmptyAnswersAlert) && testState == old(testState)
                && testResult == old(testResult) && users.user == old(users.user)
      ensures var text := CombineAnswers(questions, answers);
              old(IsLastQuestion()) && Trim(text) != "" && EvaluateAnswer(server(text)).Ok? ==>
                var v := EvaluateAnswer(server(text)).value;
                alert.None? && testState == Results && testResult == Some(v)
                && (old(users.user).Some? ==> users.user == Some(old(users.user).value.(cefrLevel := Some(v.level))))
                && (old(users.user).None? ==> users.user.None?)
      ensures var text := CombineAnswers(questions, answers);
              old(IsLastQuestion()) && Trim(text) != "" && EvaluateAnswer(server(text)).Err? ==>
                alert == Some(EvaluationFailedAlert) && testState == old(testState)
                && testResult == old(testResult) && users.user == old(users.user)
    {
      if IsLastQuestion() {
        alert := SubmitTest(server, users);
      } else {
        currentAnswer := "";
        currentQuestionIndex := currentQuestionIndex + 1;
        alert := None;
      }
    }
  }

  /**
   * The submission guard `Trim(text) == ""` stops a submission exactly when no question has a
   * non-blank answer, so the evaluator is asked only when there is something to evaluate.
   */
  lemma SubmissionGuard(questions: seq<Question>, answers: map<string, string>)
    ensures Trim(CombineAnswers(questions, answers)) == ""
            <==> forall k :: 0 <= k < |questions| ==> IsBlank(AnswerOf(answers, questions[k].id))
  {
  }
}
