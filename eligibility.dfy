/** The eligibility filter: a minimum income read from each card's free-text
    eligibility, a filter on the parsed income answer, and the first three
    survivors taken off the front of the (possibly shared) card array. */
module Eligibility {
  import opened Wrappers
  import opened JsNumbers
  import opened Intake

  /** A catalog record. Fields other than these two only feed the LLM prompt. */
  datatype Card = Card(name: string, eligibility: Option<string>)

  predicate IsDigitOrComma(c: char) {
    IsDecimalDigit(c) || c == ','
  }

  /** The first index at or after `i` holding a decimal digit. */
  function FirstDigitFrom(s: string, i: nat): (r: Option<nat>)
    requires i <= |s|
    ensures r.Some? ==> i <= r.value < |s| && IsDecimalDigit(s[r.value])
    ensures r.Some? ==> forall k :: i <= k < r.value ==> !IsDecimalDigit(s[k])
    ensures r.None? ==> forall k :: i <= k < |s| ==> !IsDecimalDigit(s[k])
    decreases |s| - i
  {
    if i == |s| then None
    else if IsDecimalDigit(s[i]) then Some(i)
    else FirstDigitFrom(s, i + 1)
  }

  /** The end of the run of digits and commas that starts at `i`. */
  function RunEnd(s: string, i: nat): (j: nat)
    requires i <= |s|
    ensures i <= j <= |s|
    ensures forall k :: i <= k < j ==> IsDigitOrComma(s[k])
    ensures j == |s| || !IsDigitOrComma(s[j])
    decreases |s| - i
  {
    if i < |s| && IsDigitOrComma(s[i]) then RunEnd(s, i + 1) else i
  }

  /** The first match of the global pattern `\d[\d,]*` in `s`, or `None` (`null`) when there is none:
      it starts at the first digit and extends greedily over digits and commas. */
  function FirstNumberMatch(s: string): (r: Option<string>)
    ensures r.None? <==> forall k :: 0 <= k < |s| ==> !IsDecimalDigit(s[k])
    ensures r.Some? ==> r.value != [] && IsDecimalDigit(r.value[0])
    ensures r.Some? ==> forall k :: 0 <= k < |r.value| ==> IsDigitOrComma(r.value[k])
  {
    match FirstDigitFrom(s, 0)
    case None => None
    case Some(i) => Some(s[i..RunEnd(s, i)])
  }

  /** `s.replace(/,/g, '')`. */
  function RemoveCommas(s: string): (r: string)
    ensures |r| <= |s|
    ensures forall k :: 0 <= k < |r| ==> r[k] != ','
  {
    if s == [] then []
    else if s[0] == ',' then RemoveCommas(s[1..])
    else [s[0]] + RemoveCommas(s[1..])
  }

  /** The minimum income stated by an eligibility text: the first number match
      with its commas removed, read with `parseInt`; `None` when there is no match.
      A text without a digit states no threshold; any other states a non-negative one. */
  function Threshold(e: string): (r: Option<int>)
    ensures r.None? <==> forall k :: 0 <= k < |e| ==> !IsDecimalDigit(e[k])
    ensures r.Some? ==> r.value >= 0
  {
    match FirstNumberMatch(e)
    case None => None
    case Some(m) =>
      RemoveCommasOfRun(m);
      DecimalDigits(RemoveCommas(m));
      ParseInt(RemoveCommas(m))
  }

  /** The callback given to `filter`: a card without an eligibility text, with an
      empty one or with one that has no number passes; otherwise the parsed income
      must be at least the threshold, and a `NaN` income (`None`) never is. */
  function KeepCard(card: Card, income: Option<int>): (keep: bool)
    ensures (card.eligibility.None? ||
             forall k :: 0 <= k < |card.eligibility.value| ==> !IsDecimalDigit(card.eligibility.value[k])) ==> keep
    ensures card.eligibility.Some? && Threshold(card.eligibility.value).Some? ==>
      (keep <==> income.Some? && income.value >= Threshold(card.eligibility.value).value)
    ensures card.eligibility.Some? && income.None? ==>
      (keep <==> forall k :: 0 <= k < |card.eligibility.value| ==> !IsDecimalDigit(card.eligibility.value[k]))
  {
    match card.eligibility
    case None => true
    case Some(e) =>
      e == "" ||
      match Threshold(e)
      case None => true
      case Some(minIncome) => income.Some? && income.value >= minIncome
  }

  /** `Array.prototype.filter` on the values of an array of cards. */
  function FilterSeq(s: seq<Card>, keep: Card -> bool): (r: seq<Card>)
    ensures |r| <= |s|
    ensures forall x :: x in r <==> x in s && keep(x)
  {
    if s == [] then []
    else (if keep(s[0]) then [s[0]] else []) + FilterSeq(s[1..], keep)
  }

  /** The cards that survive the income filter for the given income answer. */
  function Kept(cards: seq<Card>, income: string): (r: seq<Card>)
    ensures |r| <= |cards|
    ensures forall c :: c in r <==> c in cards && KeepCard(c, ParseInt(income))
  {
    var value := ParseInt(income);
    FilterSeq(cards, c => KeepCard(c, value))
  }

  /** The first three elements of `s`, or all of them when there are fewer. */
  function FirstThree<T>(s: seq<T>): (r: seq<T>)
    ensures |r| == if |s| < 3 then |s| else 3
    ensures r == s[..|r|]
  {
    if |s| < 3 then s else s[..3]
  }

  /** Where `splice(start, deleteCount)` starts and how many elements it removes
      from an array of length `len`; a negative start counts from the end. */
  function SpliceRange(start: int, deleteCount: int, len: nat): (r: (nat, nat))
    ensures r.0 <= len && r.1 <= len - r.0
    ensures 0 <= start <= len ==> r.0 == start
    ensures start < 0 ==> r.0 == if len + start < 0 then 0 else len + start
    ensures start > len ==> r.0 == len
    ensures 0 <= deleteCount <= len - r.0 ==> r.1 == deleteCount
    ensures deleteCount < 0 ==> r.1 == 0
    ensures deleteCount > len - r.0 ==> r.1 == len - r.0
  {
    var s := if start < 0 then (if len + start < 0 then 0 else len + start)
             else if start > len then len else start;
    var d := if deleteCount < 0 then 0
             else if deleteCount > len - s then len - s else deleteCount;
    (s, d)
  }

  /** A JavaScript array of cards. Arrays are shared by reference, and `splice`
      changes the one it is called on. */
  class CardList {
    var items: seq<Card>

    constructor (items: seq<Card>)
      ensures this.items == items
    {
      this.items := items;
    }

    /** `filter`: a new array with the cards `keep` accepts, in order; this one is untouched. */
    method Filter(keep: Card -> bool) returns (r: CardList)
      ensures fresh(r) && r.items == FilterSeq(items, keep)
    {
      r := new CardList(FilterSeq(items, keep));
    }

    /** `splice(start, deleteCount)`: removes the elements in the clamped range
      from this array and returns them. */
    method Splice(start: int, deleteCount: int) returns (removed: seq<Card>)
      modifies this
      ensures var (s, d) := SpliceRange(start, deleteCount, |old(items)|);
        removed == old(items)[s..s + d] && items == old(items)[..s] + old(items)[s + d..]
    {
      var (s, d) := SpliceRange(start, deleteCount, |items|);
      removed := items[s..s + d];
      items := items[..s] + items[s + d..];
    }
  }

  /** `filterAndRankCards` on the card catalog `db`. With an income answer the
      filter builds a new array and the catalog is untouched; without one the
      catalog itself is spliced and loses the cards returned. */
  method FilterAndRankCards(db: CardList, answers: Answers) returns (top: seq<Card>)
    modifies db
    ensures |top| <= 3
    ensures Answered(answers, Income) ==>
      top == FirstThree(Kept(old(db.items), answers[Income])) && db.items == old(db.items)
    ensures !Answered(answers, Income) ==>
      top == FirstThree(old(db.items)) && db.items == old(db.items)[|top|..]
  {
    var filtered := db;
    if Answered(answers, Income) {
      var income := ParseInt(answers[Income]);
      filtered := filtered.Filter(c => KeepCard(c, income));
    }
    top := filtered.Splice(0, 3);
  }

  // Properties of the filter

  /** `filter` distributes over concatenation: the survivors keep their order. */
  lemma {:induction false} FilterSeqAppend(a: seq<Card>, b: seq<Card>, keep: Card -> bool)
    ensures FilterSeq(a + b, keep) == FilterSeq(a, keep) + FilterSeq(b, keep)
  {
    if a == [] {
      assert a + b == b;
    } else {
      assert (a + b)[0] == a[0];
      assert (a + b)[1..] == a[1..] + b;
      FilterSeqAppend(a[1..], b, keep);
    }
  }

  /** The survivors of a concatenated catalog are the survivors of each part, in
      catalog order; a single card survives exactly when the callback keeps it. */
  lemma KeptInOrder(a: seq<Card>, b: seq<Card>, income: string)
    ensures Kept(a + b, income) == Kept(a, income) + Kept(b, income)
    ensures forall c :: Kept([c], income) == if KeepCard(c, ParseInt(income)) then [c] else []
  {
    var value := ParseInt(income);
    FilterSeqAppend(a, b, c => KeepCard(c, value));
    forall c ensures Kept([c], income) == if KeepCard(c, value) then [c] else [] {
      assert [c][1..] == [];
    }
  }

  lemma {:induction false} FirstDigitFromSkips(p: string, s: string, i: nat)
    requires i <= |p|
    requires forall k :: 0 <= k < |p| ==> !IsDecimalDigit(p[k])
    requires s != [] && IsDecimalDigit(s[0])
    ensures FirstDigitFrom(p + s, i) == Some(|p|)
    decreases |p| - i
  {
    if i < |p| {
      FirstDigitFromSkips(p, s, i + 1);
    }
  }

  lemma {:induction false} RunEndSpans(p: string, run: string, rest: string, i: nat)
    requires |p| <= i <= |p| + |run|
    requires forall k :: 0 <= k < |run| ==> IsDigitOrComma(run[k])
    requires rest == [] || !IsDigitOrComma(rest[0])
    ensures RunEnd(p + run + rest, i) == |p| + |run|
    decreases |p| + |run| - i
  {
    var s := p + run + rest;
    if i < |p| + |run| {
      assert s[i] == run[i - |p|];
      RunEndSpans(p, run, rest, i + 1);
    } else if rest != [] {
      assert s[i] == rest[0];
    }
  }

  /** Text without a comma is left as it is. */
  lemma {:induction false} RemoveCommasNoComma(s: string)
    requires forall k :: 0 <= k < |s| ==> s[k] != ','
    ensures RemoveCommas(s) == s
  {
    if s != [] {
      RemoveCommasNoComma(s[1..]);
    }
  }

  /** A run of digits and commas that starts with a digit loses only its commas:
      what is left is a non-empty string of digits starting with the same digit. */
  lemma {:induction false} RemoveCommasOfRun(s: string)
    requires forall k :: 0 <= k < |s| ==> IsDigitOrComma(s[k])
    ensures forall k :: 0 <= k < |RemoveCommas(s)| ==> IsDecimalDigit(RemoveCommas(s)[k])
    ensures s != [] && s[0] != ',' ==> RemoveCommas(s) != [] && RemoveCommas(s)[0] == s[0]
  {
    if s != [] {
      RemoveCommasOfRun(s[1..]);
    }
  }

  lemma {:induction false} RemoveCommasAppend(a: string, b: string)
    ensures RemoveCommas(a + b) == RemoveCommas(a) + RemoveCommas(b)
  {
    if a == [] {
      assert a + b == b;
    } else {
      assert (a + b)[0] == a[0];
      assert (a + b)[1..] == a[1..] + b;
      RemoveCommasAppend(a[1..], b);
    }
  }

  /** A comma is removed and any other character is kept. */
  lemma RemoveCommasSingle(c: char)
    ensures RemoveCommas([c]) == if c == ',' then [] else [c]
  {
    assert [c][1..] == [];
  }

  /** Removing the commas from `a,b` when neither part has one gives `ab`. */
  lemma {:induction false} RemoveOneComma(a: string, b: string)
    requires forall k :: 0 <= k < |a| ==> a[k] != ','
    requires forall k :: 0 <= k < |b| ==> b[k] != ','
    ensures RemoveCommas(a + "," + b) == a + b
  {
    var s := a + "," + b;
    if a == [] {
      assert s == [','] + b && s[1..] == b;
      RemoveCommasNoComma(b);
    } else {
      assert s[0] == a[0] && s[1..] == a[1..] + "," + b;
      RemoveOneComma(a[1..], b);
      assert a == [a[0]] + a[1..];
    }
  }

  /** The threshold is found exactly as the regular expression finds it: for a
      text that is a digit-free prefix, then a run of digits and commas starting
      with a digit, then anything not continuing the run, it is the decimal value
      of the run with its commas removed. */
  lemma ThresholdOfFirstRun(p: string, run: string, rest: string)
    requires forall k :: 0 <= k < |p| ==> !IsDecimalDigit(p[k])
    requires run != [] && IsDecimalDigit(run[0])
    requires forall k :: 0 <= k < |run| ==> IsDigitOrComma(run[k])
    requires rest == [] || !IsDigitOrComma(rest[0])
    ensures Threshold(p + run + rest) == Some(DigitsValue(RemoveCommas(run), 10))
  {
    var s := p + run + rest;
    assert p + run + rest == p + (run + rest);
    FirstDigitFromSkips(p, run + rest, 0);
    RunEndSpans(p, run, rest, |p|);
    assert s[|p|..|p| + |run|] == run;
    RemoveCommasOfRun(run);
    DecimalDigits(RemoveCommas(run));
  }

  /** With a missing or empty eligibility text, or one that has no digit, a card
      survives whatever the income. */
  lemma KeptWithoutThreshold(cards: seq<Card>, c: Card, income: string)
    requires c in cards
    requires c.eligibility.None? || forall k :: 0 <= k < |c.eligibility.value| ==> !IsDecimalDigit(c.eligibility.value[k])
    ensures c in Kept(cards, income)
  {
  }

  /** A card whose text states a threshold survives exactly when `parseInt` of the
      income is a number at least that threshold; a `NaN` income rejects it. */
  lemma KeptWithThreshold(cards: seq<Card>, c: Card, income: string, minIncome: int)
    requires c in cards
    requires c.eligibility.Some? && Threshold(c.eligibility.value) == Some(minIncome)
    ensures c in Kept(cards, income) <==> ParseInt(income).Some? && ParseInt(income).value >= minIncome
    ensures ParseInt(income).None? ==> c !in Kept(cards, income)
  {
  }

  lemma ThirtyThousandCommas()
    ensures RemoveCommas("30,000") == "30000"
  {
    var a, b := "30", "000";
    assert forall k :: 0 <= k < |a| ==> a[k] != ',';
    assert forall k :: 0 <= k < |b| ==> b[k] != ',';
    RemoveOneComma(a, b);
    assert a + "," + b == "30,000";
    assert a + b == "30000";
  }

  lemma ThirtyThousandValue()
    ensures DigitsValue("30000", 10) == 30000
  {
    DigitsValueAppend("", '3', 10);
    assert "" + ['3'] == "3";
    DigitsValueAppend("3", '0', 10);
    assert "3" + ['0'] == "30";
    DigitsValueAppend("30", '0', 10);
    assert "30" + ['0'] == "300";
    DigitsValueAppend("300", '0', 10);
    assert "300" + ['0'] == "3000";
    DigitsValueAppend("3000", '0', 10);
    assert "3000" + ['0'] == "30000";
  }

  /** The words before the amount hold no digit. */
  lemma RupeePrefixDigitFree(p: string)
    requires p == "Minimum income \U{20B9}"
    ensures forall k :: 0 <= k < |p| ==> !IsDecimalDigit(p[k])
  {
  }

  /** The amount after the words is a run of digits and commas that ends the text. */
  lemma AmountIsNumberRun(p: string, run: string)
    requires p == "Minimum income \U{20B9}"
    requires run == "30,000" || run == "100,000"
    ensures forall k :: 0 <= k < |run| ==> IsDigitOrComma(run[k])
    ensures run != [] && IsDecimalDigit(run[0])
    ensures run == "30,000" ==> p + run + "" == "Minimum income \U{20B9}30,000"
    ensures run == "100,000" ==> p + run + "" == "Minimum income \U{20B9}100,000"
  {
  }

  /** "Minimum income \U{20B9}30,000" states a minimum income of 30000. */
  lemma ThirtyThousand()
    ensures Threshold("Minimum income \U{20B9}30,000") == Some(30000)
  {
    var p := "Minimum income \U{20B9}";
    RupeePrefixDigitFree(p);
    AmountIsNumberRun(p, "30,000");
    ThresholdOfFirstRun(p, "30,000", "");
    ThirtyThousandCommas();
    ThirtyThousandValue();
  }

  lemma HundredThousandCommas()
    ensures RemoveCommas("100,000") == "100000"
  {
    var a, b := "100", "000";
    assert forall k :: 0 <= k < |a| ==> a[k] != ',';
    assert forall k :: 0 <= k < |b| ==> b[k] != ',';
    RemoveOneComma(a, b);
    assert a + "," + b == "100,000";
    assert a + b == "100000";
  }

  lemma HundredThousandValue()
    ensures DigitsValue("100000", 10) == 100000
  {
    DigitsValueAppend("", '1', 10);
    assert "" + ['1'] == "1";
    DigitsValueAppend("1", '0', 10);
    assert "1" + ['0'] == "10";
    DigitsValueAppend("10", '0', 10);
    assert "10" + ['0'] == "100";
    DigitsValueAppend("100", '0', 10);
    assert "100" + ['0'] == "1000";
    DigitsValueAppend("1000", '0', 10);
    assert "1000" + ['0'] == "10000";
    DigitsValueAppend("10000", '0', 10);
    assert "10000" + ['0'] == "100000";
  }

  /** "Minimum income \U{20B9}100,000" states a minimum income of 100000. */
  lemma HundredThousand()
    ensures Threshold("Minimum income \U{20B9}100,000") == Some(100000)
  {
    var p := "Minimum income \U{20B9}";
    RupeePrefixDigitFree(p);
    AmountIsNumberRun(p, "100,000");
    ThresholdOfFirstRun(p, "100,000", "");
    HundredThousandCommas();
    HundredThousandValue();
  }

  lemma KeepsThirtyThousandCard(a: Card)
    requires a.eligibility == Some("Minimum income \U{20B9}30,000")
    ensures KeepCard(a, Some(50000))
  {
    ThirtyThousand();
  }

  lemma DropsHundredThousandCard(b: Card)
    requires b.eligibility == Some("Minimum income \U{20B9}100,000")
    ensures !KeepCard(b, Some(50000))
  {
    HundredThousand();
  }

  /** An income of "50000" keeps a card asking for 30,000 and drops one asking for 100,000. */
  lemma KeptExample(a: Card, b: Card)
    requires a.eligibility == Some("Minimum income \U{20B9}30,000")
    requires b.eligibility == Some("Minimum income \U{20B9}100,000")
    ensures Kept([a, b], "50000") == [a]
  {
    ParseIntDecimalExample();
    KeepsThirtyThousandCard(a);
    DropsHundredThousandCard(b);
    assert [a, b] == [a] + [b];
    KeptInOrder([a], [b], "50000");
  }
}
