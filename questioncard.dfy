/** The question card: derives whether the question's time is up, guards the
    answer box and the submit button, and hands the answer with the time spent
    to its parent at most once per mount, through a submitting flag that is
    set and never cleared. */
module CardView {
  import opened JsCore
  import opened JsString
  import opened Catalog
  import opened Api
  import ProgressView

  /** The `onSubmit(answer, timeSpent)` call the card makes. */
  datatype Submission = Submission(answer: string, timeSpent: int)

  /** `isExpired`: the timer is flagged expired or has nothing left. */
  predicate IsExpired(t: QuestionTimer) {
    t.isExpired || t.timeRemaining <= 0
  }

  /** In a well-formed session the card's expiry test is exactly the timer's
      expired flag: an untouched timer holds its positive limit, and an accessed
      one is flagged exactly when it is at 0. */
  lemma CardExpiredInSession(s: ScreeningSession, i: int)
    requires WellFormed(s)
    requires 0 <= i < |s.questionTimers|
    ensures IsExpired(s.questionTimers[i]) <==> s.questionTimers[i].isExpired
  {
    CategoriesAndLimits(i);
  }

  /** For an accessed timer the card's expiry and the progress dot's "expired" agree. */
  lemma CardAndDotAgree(timers: seq<QuestionTimer>, i: int)
    requires 0 <= i < |timers| && timers[i].hasBeenAccessed
    ensures ProgressView.GetQuestionStatus(Some(timers), i) == ProgressView.Expired <==> IsExpired(timers[i])
  {
  }

  /** `question.timeLimit - timer.timeRemaining`: the seconds used of the question's allowance. */
  function TimeSpent(q: Question, t: QuestionTimer): (n: int)
    ensures n + t.timeRemaining == q.timeLimit
    ensures 0 <= t.timeRemaining <= q.timeLimit ==> 0 <= n <= q.timeLimit
    ensures t.timeRemaining == q.timeLimit ==> n == 0
  {
    q.timeLimit - t.timeRemaining
  }

  class QuestionCard {
    const question: Question
    const questionNumber: int
    const totalQuestions: int
    const isLast: bool
    var answer: string
    var isSubmitting: bool
    /** Every `onSubmit` call made so far by this mount. */
    ghost var submissions: seq<Submission>

    /** The flag is set exactly when a submission went out, and at most one ever does. */
    ghost predicate Valid()
      reads this
    {
      |submissions| <= 1 && (isSubmitting <==> |submissions| == 1)
    }

    /** Mounting the card: the answer box starts from the stored answer. */
    constructor (question: Question, questionNumber: int, totalQuestions: int, isLast: bool, existingAnswer: string)
      ensures Valid()
      ensures this.question == question && this.questionNumber == questionNumber
      ensures this.totalQuestions == totalQuestions && this.isLast == isLast
      ensures answer == existingAnswer && !isSubmitting && submissions == []
    {
      this.question := question;
      this.questionNumber := questionNumber;
      this.totalQuestions := totalQuestions;
      this.isLast := isLast;
      answer := existingAnswer;
      isSubmitting := false;
      submissions := [];
    }

    /** The effect that restores the stored answer when it changes. */
    method RestoreAnswer(existingAnswer: string)
      requires Valid()
      modifies this
      ensures Valid()
      ensures answer == existingAnswer
      ensures isSubmitting == old(isSubmitting) && submissions == old(submissions)
    {
      answer := existingAnswer;
    }

    /** The answer box's change handler: edits are ignored once time is up. */
    method Edit(timer: QuestionTimer, text: string)
      requires Valid()
      modifies this
      ensures Valid()
      ensures answer == if IsExpired(timer) then old(answer) else text
      ensures !TextareaDisabled(isSubmitting, timer) ==> answer == text
      ensures isSubmitting == old(isSubmitting) && submissions == old(submissions)
    {
      if !IsExpired(timer) {
        answer := text;
      }
    }

    /** `handleSubmit`: nothing once expired or already submitting (so the
        "Finish Interview" button of an expired last question does nothing);
        otherwise set the flag and submit the answer with the time spent. */
    method HandleSubmit(timer: QuestionTimer) returns (call: Option<Submission>)
      requires Valid()
      modifies this
      ensures Valid()
      ensures answer == old(answer)
      ensures IsExpired(timer) || old(isSubmitting) ==>
        call == None && isSubmitting == old(isSubmitting) && submissions == old(submissions)
      ensures !IsExpired(timer) && !old(isSubmitting) ==>
        && isSubmitting
        && call == Some(Submission(answer, TimeSpent(question, timer)))
        && submissions == old(submissions) + [call.value]
      ensures call.Some? ==> old(submissions) == []
    {
      if IsExpired(timer) || isSubmitting {
        return None;
      }
      isSubmitting := true;
      call := Some(Submission(answer, TimeSpent(question, timer)));
      submissions := submissions + [call.value];
    }

    /** `handleTimeUp`, the countdown's time-up callback: submit only when
        neither submitting nor expired. */
    method HandleTimeUp(timer: QuestionTimer) returns (call: Option<Submission>)
      requires Valid()
      modifies this
      ensures Valid()
      ensures answer == old(answer)
      ensures IsExpired(timer) || old(isSubmitting) ==>
        call == None && isSubmitting == old(isSubmitting) && submissions == old(submissions)
      ensures !IsExpired(timer) && !old(isSubmitting) ==>
        && isSubmitting
        && call == Some(Submission(answer, TimeSpent(question, timer)))
        && submissions == old(submissions) + [call.value]
      ensures call.Some? ==> old(submissions) == []
    {
      call := None;
      if !isSubmitting && !IsExpired(timer) {
        call := HandleSubmit(timer);
      }
    }
  }

  /** The answer box is disabled while submitting and once expired. */
  predicate TextareaDisabled(isSubmitting: bool, timer: QuestionTimer)
    ensures IsExpired(timer) ==> TextareaDisabled(isSubmitting, timer)
  {
    isSubmitting || IsExpired(timer)
  }

  /** The live submit button is disabled while submitting or when the answer trims to nothing. */
  function SubmitButtonDisabled(isSubmitting: bool, answer: string): (disabled: bool)
    ensures disabled <==> isSubmitting || AllWhitespace(answer)
  {
    TrimEmptyIff(answer);
    isSubmitting || Trim(answer) == ""
  }

  /** Where the expired card's "Next Question" button goes: "/question/"
      followed by a number that reads back as `questionNumber + 1`. */
  function NextQuestionPath(questionNumber: int): (path: string)
    ensures |path| > 10 && path[..10] == "/question/"
    ensures ParseDecimal(path[10..]) == Int(questionNumber + 1)
  {
    IntToDecimalRoundTrip(questionNumber + 1);
    var path := "/question/" + IntToDecimal(questionNumber + 1);
    assert path[10..] == IntToDecimal(questionNumber + 1);
    path
  }

  /** Once the card's own question was accessed, the question its "Next Question"
      path names passes the navigation gate, even if it was never accessed. */
  lemma NextQuestionOpen(s: ScreeningSession, questionNumber: int)
    requires WellFormed(s)
    requires 1 <= questionNumber <= |s.questionTimers|
    requires s.questionTimers[questionNumber - 1].hasBeenAccessed
    ensures ParseDecimal(NextQuestionPath(questionNumber)[10..]) == Int(questionNumber + 1)
    ensures CanAccessQuestion(s, questionNumber + 1)
  {
    AccessedIsAccessible(s, questionNumber - 1);
  }

  /** The footer's count, `totalQuestions - questionNumber`. */
  function RemainingQuestions(totalQuestions: int, questionNumber: int): (n: int)
    ensures 1 <= questionNumber <= totalQuestions ==> 0 <= n < totalQuestions
    ensures questionNumber == totalQuestions ==> n == 0
  {
    totalQuestions - questionNumber
  }

  /** The catalog entries whose id is above `n`. */
  function CountAfter(qs: seq<Question>, n: int): nat {
    if qs == [] then 0 else (if qs[0].id > n then 1 else 0) + CountAfter(qs[1..], n)
  }

  /** Every entry of a dense run starting above `n` is counted. */
  lemma {:induction false} CountAllAbove(qs: seq<Question>, base: int, n: int)
    requires forall i :: 0 <= i < |qs| ==> qs[i].id == base + i + 1
    requires n <= base
    ensures CountAfter(qs, n) == |qs|
  {
    if qs != [] {
      CountAllAbove(qs[1..], base + 1, n);
    }
  }

  /** In a dense run of ids base + 1, base + 2, ..., exactly those above `n` are counted. */
  lemma {:induction false} CountAfterDense(qs: seq<Question>, base: int, n: int)
    requires forall i :: 0 <= i < |qs| ==> qs[i].id == base + i + 1
    requires base <= n <= base + |qs|
    ensures CountAfter(qs, n) == base + |qs| - n
  {
    if qs != [] {
      if n == base {
        CountAllAbove(qs, base, n);
      } else {
        CountAfterDense(qs[1..], base + 1, n);
      }
    }
  }

  /** For a question of the catalog, the footer's count is the number of catalog questions after it. */
  lemma RemainingIsQuestionsAfter(questionNumber: int)
    requires 1 <= questionNumber <= TotalQuestions()
    ensures RemainingQuestions(TotalQuestions(), questionNumber) == CountAfter(Questions, questionNumber)
    ensures 0 <= RemainingQuestions(TotalQuestions(), questionNumber) < TotalQuestions()
  {
    IdsDense();
    CountAfterDense(Questions, 0, questionNumber);
  }
}
