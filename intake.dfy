/** The intake state machine: five fixed questions asked in a fixed order, each
    answered by a free-text value in the caller's answer set. */
module Intake {
  import opened Wrappers

  /** The answer set sent with every turn: question key to the text the user typed. */
  type Answers = map<string, string>

  datatype Question = Question(key: string, text: string)

  const Income := "income"
  const Spending := "spending"
  const Benefits := "benefits"
  const ExistingCards := "existing_cards"
  const CreditScore := "credit_score"

  /** The question flow, in the order the questions are asked. */
  const QuestionFlow: seq<Question> := [
    Question(Income, "What is your monthly income (in INR)?"),
    Question(Spending, "What are your top spending categories? (fuel, travel, groceries, dining, etc.)"),
    Question(Benefits, "What benefits do you prefer? (cashback, travel points, lounge access, etc.)"),
    Question(ExistingCards, "Do you have any existing credit cards? (optional)"),
    Question(CreditScore, "What is your approximate credit score? (or type \"unknown\")")
  ]

  /** The flow asks about income, spending, benefits, existing cards and credit
      score, in that order, each key once and each with a non-empty question. */
  lemma QuestionFlowOrder()
    ensures |QuestionFlow| == 5
    ensures QuestionFlow[0].key == Income && QuestionFlow[1].key == Spending &&
            QuestionFlow[2].key == Benefits && QuestionFlow[3].key == ExistingCards &&
            QuestionFlow[4].key == CreditScore
    ensures forall i, j :: 0 <= i < j < |QuestionFlow| ==> QuestionFlow[i].key != QuestionFlow[j].key
    ensures forall i :: 0 <= i < |QuestionFlow| ==> QuestionFlow[i].text != ""
  {
  }

  /** A key counts as answered when its value is present and not the empty
      string (a missing key and `""` are both falsy in JavaScript). */
  predicate Answered(answers: Answers, key: string) {
    key in answers && answers[key] != ""
  }

  /** Question `i` is the first one in the flow left unanswered. */
  predicate FirstUnanswered(answers: Answers, i: nat) {
    i < |QuestionFlow| && !Answered(answers, QuestionFlow[i].key) &&
    forall j :: 0 <= j < i ==> Answered(answers, QuestionFlow[j].key)
  }

  predicate AllAnswered(answers: Answers) {
    forall i :: 0 <= i < |QuestionFlow| ==> Answered(answers, QuestionFlow[i].key)
  }

  /** The next question from position `i` of the flow on: the text of the first
      unanswered one, or `None` when the rest of the flow is answered. */
  function NextQuestionFrom(answers: Answers, i: nat): Option<string>
    decreases |QuestionFlow| - i
  {
    if i >= |QuestionFlow| then None
    else if !Answered(answers, QuestionFlow[i].key) then Some(QuestionFlow[i].text)
    else NextQuestionFrom(answers, i + 1)
  }

  /** What `getNextQuestion` returns for an answer set (`None` is `null`). */
  function NextQuestion(answers: Answers): Option<string> {
    NextQuestionFrom(answers, 0)
  }

  /** `getNextQuestion`: walk the flow and stop at the first unanswered key. */
  method GetNextQuestion(answers: Answers) returns (q: Option<string>)
    ensures q == NextQuestion(answers)
    ensures q.Some? ==> q.value != ""
  {
    for i := 0 to |QuestionFlow|
      invariant NextQuestionFrom(answers, i) == NextQuestion(answers)
    {
      if !Answered(answers, QuestionFlow[i].key) {
        return Some(QuestionFlow[i].text);
      }
    }
    return None;
  }

  lemma {:induction false} NextQuestionFromFirst(answers: Answers, i: nat, k: nat)
    requires k <= i
    requires FirstUnanswered(answers, i)
    ensures NextQuestionFrom(answers, k) == Some(QuestionFlow[i].text)
    decreases i - k
  {
    if k < i {
      NextQuestionFromFirst(answers, i, k + 1);
    }
  }

  lemma {:induction false} NextQuestionFromAllAnswered(answers: Answers, k: nat)
    requires forall j :: k <= j < |QuestionFlow| ==> Answered(answers, QuestionFlow[j].key)
    ensures NextQuestionFrom(answers, k) == None
    decreases |QuestionFlow| - k
  {
    if k < |QuestionFlow| {
      NextQuestionFromAllAnswered(answers, k + 1);
    }
  }

  /** The returned question is the text of the first unanswered key in flow order. */
  lemma {:induction false} NextQuestionIsFirstUnanswered(answers: Answers, i: nat)
    requires FirstUnanswered(answers, i)
    ensures NextQuestion(answers) == Some(QuestionFlow[i].text)
  {
    NextQuestionFromFirst(answers, i, 0);
  }

  /** The result is `null` exactly when all five keys hold non-empty answers. */
  lemma {:induction false} NextQuestionNoneIffAllAnswered(answers: Answers)
    ensures NextQuestion(answers) == None <==> AllAnswered(answers)
  {
    if AllAnswered(answers) {
      NextQuestionFromAllAnswered(answers, 0);
    } else {
      var i := FirstUnansweredExists(answers, 0);
      NextQuestionIsFirstUnanswered(answers, i);
    }
  }

  lemma {:induction false} FirstUnansweredExists(answers: Answers, k: nat) returns (i: nat)
    requires k <= |QuestionFlow|
    requires forall j :: 0 <= j < k ==> Answered(answers, QuestionFlow[j].key)
    requires !AllAnswered(answers)
    ensures FirstUnanswered(answers, i)
    decreases |QuestionFlow| - k
  {
    if k < |QuestionFlow| && !Answered(answers, QuestionFlow[k].key) {
      i := k;
    } else if k < |QuestionFlow| {
      i := FirstUnansweredExists(answers, k + 1);
    } else {
      assert false;
    }
  }

  /** Answers at keys after the first unanswered one never change the result:
      two answer sets that agree on which of the keys up to that one are
      answered get the same question. */
  lemma {:induction false} NextQuestionIgnoresLaterKeys(a: Answers, b: Answers, i: nat)
    requires FirstUnanswered(a, i)
    requires forall j :: 0 <= j <= i ==>
      (Answered(a, QuestionFlow[j].key) <==> Answered(b, QuestionFlow[j].key))
    ensures NextQuestion(a) == NextQuestion(b) == Some(QuestionFlow[i].text)
  {
    assert FirstUnanswered(b, i);
    NextQuestionIsFirstUnanswered(a, i);
    NextQuestionIsFirstUnanswered(b, i);
  }

  /** Once intake is complete, the income answer is present and non-empty. */
  lemma CompleteMeansIncomeAnswered(answers: Answers)
    requires NextQuestion(answers) == None
    ensures Answered(answers, Income)
  {
    NextQuestionNoneIffAllAnswered(answers);
    assert QuestionFlow[0].key == Income;
  }

  /** An empty answer set is asked for the income first. */
  lemma FirstTurnAsksIncome()
    ensures NextQuestion(map[]) == Some("What is your monthly income (in INR)?")
  {
    assert FirstUnanswered(map[], 0);
    NextQuestionIsFirstUnanswered(map[], 0);
  }
}
