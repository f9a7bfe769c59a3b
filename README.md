# Credit-card recommender: turn logic

A Dafny model of the backend turn logic of a conversational credit-card
recommender (`backend/agent.js`). Each request carries the user's accumulated
answers. The handler either asks the next of five fixed intake questions or, once
all are answered, filters a card catalog by a minimum income read from each card's
free-text eligibility. It then asks an LLM to rank and explain the first three
survivors, and falls back to fixed recommendations when that step fails.

Modules:

- `Wrappers` (wrappers.dfy): `Option`, standing for `null` / `NaN`.
- `JsNumbers` (js_numbers.dfy): JavaScript's one-argument `parseInt` on strings.
  It skips leading white space and line terminators, takes an optional sign,
  switches to radix 16 after `0x`/`0X`, and reads the longest run of digits.
  An empty run gives `NaN`, which is `None` here.
- `Intake` (intake.dfy): `QUESTION_FLOW`, and `getNextQuestion` as a method with
  a loop proved against the function `NextQuestion`. A key is answered when it is
  present and its value is not `""`, which is JavaScript truthiness for strings.
- `Eligibility` (eligibility.dfy): the threshold extraction (first match of
  `\d[\d,]*`, commas removed, `parseInt`), the filter callback, and `filter`.
  The card array is the class `CardList`, shared by reference. `Filter` returns
  a fresh list; `Splice` changes the list it is called on. `FilterAndRankCards`
  therefore leaves the catalog alone when there is an income answer. Without
  one, it removes the returned cards from the catalog itself.
- `Agent` (agent.dfy): the fallback composer and `processUserInput`. The LLM
  step (prompting, calling the model, `JSON.parse`) is a parameter function.
  It maps the answers and the candidate cards to a failure or to an opaque
  parsed value, which is passed through unchecked.

Where the code differs from a plain reading of its design:

- An income answer that is non-empty but has no leading number parses to `NaN`.
  The code then rejects every card that states a threshold. It does not treat
  the income as absent.
- With an empty income, `filterAndRankCards` splices the shared catalog array.
  `processUserInput` only filters once every answer, including income, is
  non-empty, so through the handler the catalog is never changed. The model
  proves both facts.

## Model

| member | source | states |
|---|---|---|
| `JsNumbers.ParseInt` | backend/agent.js:35-36 | the result is `NaN` exactly when, after white space and one optional sign, no decimal digit follows, or a `0x` prefix is followed by no hexadecimal digit |
| `JsNumbers.ParseIntDecimalPrefix` | backend/agent.js:36 | a decimal numeral followed by anything that does not continue it parses to the numeral's value, except a lone `0` followed by `x` or `X` |
| `JsNumbers.ParseUnsignedHex` | backend/agent.js:36 | after a `0x` prefix, hexadecimal digits read as their radix-16 value |
| `JsNumbers.ParseIntSkipsSpace` | backend/agent.js:36 | leading white space never changes what `parseInt` returns |
| `JsNumbers.ParseIntSign` | backend/agent.js:36 | a leading `-` negates the value of the digits that follow, a leading `+` keeps it; without a sign the value is the digits' own |
| `JsNumbers.ParseIntNoDigits` | backend/agent.js:36 | text with no decimal digit at all parses to `NaN` |
| `JsNumbers.ParseIntNoLeadingDigit` | backend/agent.js:36 | when the character after the white space and one optional sign is not a digit, the result is `NaN` whatever follows |
| `JsNumbers.ParseIntNoLeadingDigitExample` | backend/agent.js:36 | `parseInt("Rs 50000")` and `parseInt("--5")` are `NaN` |
| `JsNumbers.ParseIntDecimalExample` | backend/agent.js:36 | `parseInt("50000")` is 50000 |
| `JsNumbers.ParseIntSignedExample` | backend/agent.js:36 | `parseInt("  -42k")` is -42 |
| `JsNumbers.ParseIntHexExample` | backend/agent.js:36 | `parseInt("0x1F")` is 31: with no radix a `0x` prefix selects hexadecimal |
| `JsNumbers.ParseIntNaNExample` | backend/agent.js:36 | `parseInt("abc")` is `NaN` |
| `Intake.QuestionFlowOrder` | backend/agent.js:12-18 | `QUESTION_FLOW` holds five questions keyed income, spending, benefits, existing_cards, credit_score in that order, each key once, each question non-empty |
| `Intake.GetNextQuestion` | backend/agent.js:20-25 | the loop returns exactly `NextQuestion(answers)`, and a returned question is non-empty (truthy) |
| `Intake.NextQuestionIsFirstUnanswered` | backend/agent.js:12-22 | when key `i` is the first unanswered one in the order income, spending, benefits, existing_cards, credit_score, the result is question `i`'s text |
| `Intake.NextQuestionNoneIffAllAnswered` | backend/agent.js:21-24 | the result is `null` if and only if all five keys have non-empty answers |
| `Intake.NextQuestionIgnoresLaterKeys` | backend/agent.js:21-22 | two answer sets that agree on which keys up to the first unanswered one are answered get the same question, whatever they hold after it |
| `Intake.CompleteMeansIncomeAnswered` | backend/agent.js:13-24 | once no question is left, the income answer is present and non-empty |
| `Intake.FirstTurnAsksIncome` | backend/agent.js:13-22 | an empty answer set gets "What is your monthly income (in INR)?" |
| `Eligibility.FirstDigitFrom` | backend/agent.js:33 | the index found holds a digit and no earlier index does; `None` only when there is no digit |
| `Eligibility.RunEnd` | backend/agent.js:33 | the run from a digit extends exactly over the following digits and commas, stopping at the first other character |
| `Eligibility.FirstNumberMatch` | backend/agent.js:33 | `null` exactly when the text has no digit; otherwise the match is non-empty, starts with a digit and holds only digits and commas |
| `Eligibility.RemoveCommas` | backend/agent.js:35 | the result has no comma and is no longer than the input |
| `Eligibility.RemoveCommasSingle` | backend/agent.js:35 | a single comma is removed and any other single character is kept |
| `Eligibility.RemoveCommasAppend` | backend/agent.js:35 | removing commas distributes over concatenation, so together with `RemoveCommasSingle` the result is the input with exactly its commas dropped, in order |
| `Eligibility.RemoveOneComma` | backend/agent.js:35 | `a,b` without commas in `a` or `b` becomes `ab` |
| `Eligibility.RemoveCommasNoComma` | backend/agent.js:35 | text without a comma is left unchanged |
| `Eligibility.RemoveCommasOfRun` | backend/agent.js:33-35 | a run of digits and commas keeps only digits, and a run that starts with a digit keeps that digit first, so the result is a non-empty numeral |
| `Eligibility.Threshold` | backend/agent.js:33-35 | an eligibility text states no threshold exactly when it has no digit; any stated threshold is non-negative |
| `Eligibility.KeepCard` | backend/agent.js:31-37 | a card with a missing, empty or digit-free eligibility is kept; a card with threshold `t` is kept iff the income is a number at least `t`; with a `NaN` income only cards without a digit in their eligibility are kept |
| `Eligibility.FilterSeq` | backend/agent.js:31-37 | a card is in the filtered array exactly when it is in the input and the callback keeps it; the result is no longer than the input |
| `Eligibility.Kept` | backend/agent.js:30-37 | a card survives exactly when it is in the catalog and the callback keeps it for `parseInt` of the income answer; there are no more survivors than cards |
| `Eligibility.FirstThree` | backend/agent.js:41 | `splice(0, 3)` takes `min(3, n)` elements, and they are the first ones |
| `Eligibility.SpliceRange` | backend/agent.js:41 | the clamped start and delete count of `splice` lie inside the array; in-range arguments are used as given; a negative start counts from the end (clamped to 0), a start past the end is the length, a negative count is 0 and a count past the end takes the rest |
| `Eligibility.CardList.Filter` | backend/agent.js:31 | `filter` returns a new array holding the kept cards in order, and the receiver is untouched |
| `Eligibility.CardList.Splice` | backend/agent.js:41 | `splice` returns the elements in the clamped range and removes them from the receiver in place |
| `Eligibility.FilterAndRankCards` | backend/agent.js:27-42 | at most three cards: with an income answer, the first `min(3, n)` survivors and the catalog unchanged; without one, the catalog's first `min(3, n)` cards, which are removed from the catalog |
| `Eligibility.FilterSeqAppend` | backend/agent.js:31-37 | filtering distributes over concatenation, so survivors keep their catalog order |
| `Eligibility.KeptInOrder` | backend/agent.js:31-37 | the survivors of a concatenated catalog are the survivors of each part in order, and one card survives exactly when the callback keeps it |
| `Eligibility.ThresholdOfFirstRun` | backend/agent.js:33-35 | for a digit-free prefix, then a run of digits and commas starting with a digit, then anything else, the threshold is the decimal value of that run without commas |
| `Eligibility.KeptWithoutThreshold` | backend/agent.js:32-34 | a card whose eligibility is missing, empty or digit-free survives whatever the income |
| `Eligibility.KeptWithThreshold` | backend/agent.js:35-36 | a card with threshold `t` survives iff `parseInt(income)` is a number at least `t`; a `NaN` income rejects it |
| `Eligibility.ThirtyThousand` | backend/agent.js:33-35 | "Minimum income ₹30,000" states 30000 |
| `Eligibility.HundredThousand` | backend/agent.js:33-35 | "Minimum income ₹100,000" states 100000 |
| `Eligibility.KeptExample` | backend/agent.js:30-37 | income "50000" keeps the ₹30,000 card and drops the ₹100,000 card |
| `Agent.Fallback` | backend/agent.js:103-110 | one recommendation per candidate, same count and names in the same order, each with reasons `["Matches your income and preferences."]` and reward simulation "Simulation not available." |
| `Agent.ProcessUserInput` | backend/agent.js:81-112 | with a question left: that question and no recommendations; otherwise `nextQuestion` is `null` and the recommendations are the LLM's parsed value or the fallback for the first three survivors; the catalog is never changed |
| `Agent.FallbackMirrorsCandidates` | backend/agent.js:87-110 | with the LLM failing, a complete answer set gets `min(3, survivors)` recommendations named after the survivors in catalog order |

## Left out

- The LLM client and `callGemini` (backend/agent.js:10, 44-79) are a network call into a foreign library with console logging. Prompt building and `JSON.parse` of the reply (backend/agent.js:89-102) are left out too. All of this step is the parameter `llm`, which yields a failure or an opaque parsed value; JSON syntax and prompt wording are not modelled.
- Reading `card_db.json` at start-up (backend/agent.js:7-8) is file I/O; the catalog is the `CardList` passed in.
- `async`/`await` is left out; apart from the one LLM call the handler is sequential.
- Diagnostic logging is left out.
- server.js (HTTP routing, CORS, environment set-up and the 500 error response), frontend/src/ChatUI.js and frontend/src/App.js (UI rendering, `fetch`, and the UI's guess of which key a reply answers) are not part of this model.
- `JsNumbers.ParseInt`: JavaScript returns a double, so values beyond 2^53 are rounded and `-0` exists. The model uses exact integers, and `-0` is 0, which compares the same way.
- Answer values and eligibility texts are strings in the model. A non-string JSON value would follow other truthiness rules, and `.match` on a non-string eligibility would throw.
- A missing answer set: `processUserInput(undefined)` or `null` throws a `TypeError` at backend/agent.js:22, which server.js turns into an error response. The model's answer set is always a map; server.js is not part of this model.
- A `null` entry in the catalog throws at backend/agent.js:32 when `card.eligibility` is read. The model's catalog holds only card records.
- Card fields other than `name` and `eligibility` are not modelled; they only feed the prompt. A card without a `name` gives an `undefined` name in the fallback, but the model's names are always strings.
