/**
 * The quiz of QuizView: an ordered list of questions, the index of the question on
 * screen, the finished flag that swaps the questions for the congratulation banner,
 * and the alert shown after a wrong pick.
 */
module Quiz {

  /** One multiple-choice question; `wrongAnswerPrompt` is the alert title for a wrong pick. */
  datatype Question = Question(text: string, options: seq<string>, correctAnswer: string, wrongAnswerPrompt: string)

  /** A question whose correct answer is one of the buttons it shows. */
  predicate Answerable(q: Question) {
    q.correctAnswer in q.options
  }

  /** The view's fixed question list. */
  function Questions(): (qs: seq<Question>)
    ensures |qs| == 3
    ensures forall i :: 0 <= i < |qs| ==> Answerable(qs[i])
    ensures forall i, j :: 0 <= i < j < |qs| ==> qs[i].text != qs[j].text
  {
    [ Question("What is the value of sine α?", ["4/5", "3/5"], "4/5",
               "Remember, sine is opposite divided by hypotenuse 😉"),
      Question("What is the value of cosine α?", ["4/5", "3/5"], "3/5",
               "Remember, cosine is adjacent divided by hypotenuse 😉"),
      Question("What is the value of tangent α?", ["3/4", "4/3"], "4/3",
               "Remember, tangent is opposite divided by adjacent 😉") ]
  }

  /** The view's state variables that the answer buttons change. */
  datatype QuizState = QuizState(currentQuestionIndex: nat, isQuizFinished: bool, alertTitle: string, showingAlert: bool)

  /** The state the view starts in. */
  const Initial: QuizState := QuizState(0, false, "", false)

  /** The current question exists (the view indexes `questions` with it unguarded). */
  predicate InRange(qs: seq<Question>, s: QuizState) {
    s.currentQuestionIndex < |qs|
  }

  /** A state the view can reach: the quiz only finishes on its last question. */
  predicate Consistent(qs: seq<Question>, s: QuizState) {
    InRange(qs, s) && (s.isQuizFinished ==> s.currentQuestionIndex == |qs| - 1)
  }

  /** The options offered as buttons: only while the quiz is not finished. */
  function OptionButtons(qs: seq<Question>, s: QuizState): (r: seq<string>)
    requires InRange(qs, s)
    ensures s.isQuizFinished ==> r == []
    ensures !s.isQuizFinished ==> r == qs[s.currentQuestionIndex].options
    ensures Answerable(qs[s.currentQuestionIndex]) && !s.isQuizFinished ==> qs[s.currentQuestionIndex].correctAnswer in r
  {
    if s.isQuizFinished then [] else qs[s.currentQuestionIndex].options
  }

  /** The action of the button labelled `option`. */
  function Answer(qs: seq<Question>, s: QuizState, option: string): (r: QuizState)
    requires InRange(qs, s)
    ensures InRange(qs, r)
    // a correct pick before the last question moves on by exactly one
    ensures option == qs[s.currentQuestionIndex].correctAnswer && s.currentQuestionIndex < |qs| - 1 ==>
              r == s.(currentQuestionIndex := s.currentQuestionIndex + 1)
    // a correct pick on the last question finishes the quiz and keeps the index
    ensures option == qs[s.currentQuestionIndex].correctAnswer && s.currentQuestionIndex == |qs| - 1 ==>
              r == s.(isQuizFinished := true)
    // a wrong pick keeps the progress and raises the question's own prompt
    ensures option != qs[s.currentQuestionIndex].correctAnswer ==>
              r.currentQuestionIndex == s.currentQuestionIndex && r.isQuizFinished == s.isQuizFinished &&
              r.alertTitle == qs[s.currentQuestionIndex].wrongAnswerPrompt && r.showingAlert
    ensures Consistent(qs, s) ==> Consistent(qs, r)
    // progress never goes back
    ensures s.currentQuestionIndex <= r.currentQuestionIndex && (s.isQuizFinished ==> r.isQuizFinished)
  {
    var q := qs[s.currentQuestionIndex];
    if option == q.correctAnswer then
      if s.currentQuestionIndex < |qs| - 1 then s.(currentQuestionIndex := s.currentQuestionIndex + 1)
      else s.(isQuizFinished := true)
    else
      s.(alertTitle := q.wrongAnswerPrompt, showingAlert := true)
  }

  /** Pressing the buttons labelled `answers`, in order. */
  function AnswerAll(qs: seq<Question>, s: QuizState, answers: seq<string>): (r: QuizState)
    requires InRange(qs, s)
    ensures InRange(qs, r)
    decreases |answers|
  {
    if answers == [] then s else AnswerAll(qs, Answer(qs, s, answers[0]), answers[1..])
  }

  /** The correct answers of questions `i` up to (not including) `j`. */
  function CorrectAnswers(qs: seq<Question>, i: nat, j: nat): (r: seq<string>)
    requires i <= j <= |qs|
    ensures |r| == j - i
    ensures forall k :: 0 <= k < |r| ==> r[k] == qs[i + k].correctAnswer
    decreases j - i
  {
    if i == j then [] else [qs[i].correctAnswer] + CorrectAnswers(qs, i + 1, j)
  }

  /**
   * From question `i`, answering the next `m` questions correctly reaches question `i + m`,
   * or finishes the quiz on the last question when `i + m` runs past it; the alert is untouched.
   */
  lemma {:induction false} CorrectRun(qs: seq<Question>, s: QuizState, m: nat)
    requires InRange(qs, s) && !s.isQuizFinished
    requires s.currentQuestionIndex + m <= |qs|
    ensures var r := AnswerAll(qs, s, CorrectAnswers(qs, s.currentQuestionIndex, s.currentQuestionIndex + m));
            && (s.currentQuestionIndex + m < |qs| ==> r == s.(currentQuestionIndex := s.currentQuestionIndex + m))
            && (s.currentQuestionIndex + m == |qs| ==> r == s.(currentQuestionIndex := |qs| - 1, isQuizFinished := true))
    decreases m
  {
    var i := s.currentQuestionIndex;
    var answers := CorrectAnswers(qs, i, i + m);
    if m == 0 {
      assert answers == [];
    } else {
      var s' := Answer(qs, s, answers[0]);
      assert answers[1..] == CorrectAnswers(qs, i + 1, i + m);
      if i + 1 < |qs| {
        assert s' == s.(currentQuestionIndex := i + 1);
        CorrectRun(qs, s', m - 1);
      } else {
        assert m == 1 && answers[1..] == [];
        assert s' == s.(isQuizFinished := true);
      }
    }
  }

  /** Answering every question correctly from the start finishes the quiz after exactly |qs| picks. */
  lemma FinishesAfterAllCorrect(qs: seq<Question>, k: nat)
    requires 0 < |qs| && k <= |qs|
    ensures AnswerAll(qs, Initial, CorrectAnswers(qs, 0, k)).isQuizFinished <==> k == |qs|
    ensures k < |qs| ==> AnswerAll(qs, Initial, CorrectAnswers(qs, 0, k)).currentQuestionIndex == k
  {
    CorrectRun(qs, Initial, k);
  }

  /** Once finished, no button is offered and nothing can undo the finish. */
  lemma {:induction false} FinishedIsFinal(qs: seq<Question>, s: QuizState, answers: seq<string>)
    requires Consistent(qs, s) && s.isQuizFinished
    ensures OptionButtons(qs, s) == []
    ensures AnswerAll(qs, s, answers).isQuizFinished
    ensures AnswerAll(qs, s, answers).currentQuestionIndex == s.currentQuestionIndex
    decreases |answers|
  {
    if answers != [] {
      FinishedIsFinal(qs, Answer(qs, s, answers[0]), answers[1..]);
    }
  }

  /** QuizView with the state variables its answer buttons update. */
  class QuizView {
    const questions: seq<Question>
    var currentQuestionIndex: nat
    var isQuizFinished: bool
    var alertTitle: string
    var showingAlert: bool

    ghost predicate Valid()
      reads this
    {
      0 < |questions| && Consistent(questions, State())
    }

    function State(): QuizState
      reads this
    {
      QuizState(currentQuestionIndex, isQuizFinished, alertTitle, showingAlert)
    }

    constructor ()
      ensures Valid() && questions == Questions() && State() == Initial
    {
      questions := Questions();
      currentQuestionIndex := 0;
      isQuizFinished := false;
      alertTitle := "";
      showingAlert := false;
    }

    /** The action of the button labelled `option`. */
    method Select(option: string)
      requires Valid()
      modifies this
      ensures Valid()
      ensures State() == Answer(questions, old(State()), option)
    {
      if option == questions[currentQuestionIndex].correctAnswer {
        if currentQuestionIndex < |questions| - 1 {
          currentQuestionIndex := currentQuestionIndex + 1;
        } else {
          isQuizFinished := true;
        }
      } else {
        alertTitle := questions[currentQuestionIndex].wrongAnswerPrompt;
        showingAlert := true;
      }
    }
  }
}
