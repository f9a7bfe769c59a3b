/** The turn handler `processUserInput`: ask the next intake question, or, once
    intake is complete, filter the catalog and compose recommendations, falling
    back to fixed ones when the LLM step fails. */
module Agent {
  import opened Wrappers
  import opened JsNumbers
  import opened Intake
  import opened Eligibility

  datatype Recommendation = Recommendation(name: string, reasons: seq<string>, rewardSimulation: string)

  const GenericReason := "Matches your income and preferences."
  const NoSimulation := "Simulation not available."

  /** The outcome of calling the LLM and parsing its text as JSON: a failure
      anywhere in that step, or the parsed value, which is passed on unchecked. */
  datatype LlmOutcome<J> = LlmFailed | LlmParsed(value: J)

  /** The `recommendations` field of a turn response: a list built here, or
      whatever the LLM's JSON parsed to. */
  datatype Recommendations<J> = Listed(items: seq<Recommendation>) | FromLlm(value: J)

  /** `{ nextQuestion, recommendations }`; `None` is `null`. */
  datatype TurnResponse<J> = TurnResponse(nextQuestion: Option<string>, recommendations: Recommendations<J>)

  /** The fallback of the `catch` branch: one fixed recommendation per candidate card. */
  function Fallback(topCards: seq<Card>): (r: seq<Recommendation>)
    ensures |r| == |topCards|
    ensures forall i :: 0 <= i < |r| ==>
      r[i].name == topCards[i].name && r[i].reasons == [GenericReason] && r[i].rewardSimulation == NoSimulation
  {
    if topCards == [] then []
    else [Recommendation(topCards[0].name, [GenericReason], NoSimulation)] + Fallback(topCards[1..])
  }

  /** `processUserInput` on the catalog `db`. `llm` stands for prompting the model
      with the answers and the candidate cards and parsing its reply. */
  method ProcessUserInput<J>(db: CardList, answers: Answers, llm: (Answers, seq<Card>) -> LlmOutcome<J>)
    returns (resp: TurnResponse<J>)
    modifies db
    ensures db.items == old(db.items)
    ensures NextQuestion(answers).Some? ==> resp == TurnResponse(NextQuestion(answers), Listed([]))
    ensures NextQuestion(answers).None? ==> resp.nextQuestion.None? && Answered(answers, Income)
    ensures NextQuestion(answers).None? && Answered(answers, Income) ==>
      var topCards := FirstThree(Kept(old(db.items), answers[Income]));
      resp.recommendations == match llm(answers, topCards)
        case LlmFailed => Listed(Fallback(topCards))
        case LlmParsed(v) => FromLlm(v)
  {
    var nextQuestion := GetNextQuestion(answers);
    if nextQuestion.Some? {
      return TurnResponse(nextQuestion, Listed([]));
    }
    CompleteMeansIncomeAnswered(answers);
    var topCards := FilterAndRankCards(db, answers);
    var recommendations: Recommendations<J>;
    match llm(answers, topCards) {
      case LlmParsed(v) =>
        recommendations := FromLlm(v);
      case LlmFailed =>
        recommendations := Listed(Fallback(topCards));
    }
    return TurnResponse(None, recommendations);
  }

  /** With the LLM unavailable, a complete answer set gets one recommendation per
      surviving card, up to three, named after the cards in catalog order. */
  lemma FallbackMirrorsCandidates(cards: seq<Card>, income: string)
    ensures var topCards := FirstThree(Kept(cards, income));
      |Fallback(topCards)| == (if |Kept(cards, income)| < 3 then |Kept(cards, income)| else 3) &&
      forall i :: 0 <= i < |topCards| ==> Fallback(topCards)[i].name == Kept(cards, income)[i].name
  {
  }

  /** The first turn of a conversation: an empty answer set is asked for the
      income, and the catalog stays as it was. */
  method FirstTurnExample<J>(db: CardList, llm: (Answers, seq<Card>) -> LlmOutcome<J>)
    modifies db
  {
    var before := db.items;
    var resp := ProcessUserInput(db, map[], llm);
    FirstTurnAsksIncome();
    assert resp == TurnResponse(Some("What is your monthly income (in INR)?"), Listed([]));
    assert db.items == before;
  }
}
