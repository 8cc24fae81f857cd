/** Sentiment estimation: the keyword-counting fallback heuristic
    (`naive_sentiment`), the adapter that prefers the external classifier's
    answer, and the keyword override applied after either. Confidence
    scores are integer hundredths (0.9 is 90). */
module Sentiment {
  import opened Text

  /** A polarity with its confidence in hundredths. */
  datatype Estimate = Estimate(polarity: string, score: int)

  /** The heuristic's word sets (Python sets of distinct strings). */
  const PositiveWords: seq<string> :=
    ["嬉しい", "最高", "楽しい", "ワクワク", "感謝", "元気", "わくわく", "良い", "幸せ", "やるぞ"]
  const NegativeWords: seq<string> :=
    ["疲れた", "最悪", "ムカつく", "悲しい", "つらい", "無理", "だるい", "しんどい", "泣きたい", "不安", "落ち込"]

  /** The override word lists, checked positive first. */
  const PositiveOverrides: seq<string> := ["嬉しい", "最高", "楽しい", "ワクワク", "わくわく", "ハッピー"]
  const NegativeOverrides: seq<string> := ["疲れ", "悲しい", "だる", "無理", "落ち込", "しんど"]

  /** `any(w in text for w in words)`. */
  predicate AnyIn(words: seq<string>, text: string)
  {
    exists w :: w in words && Contains(text, w)
  }

  /** `sum(1 for w in words if w in text)`: how many of the words occur in
      the text, each counted once however often it occurs. */
  function CountPresent(words: seq<string>, text: string): (c: nat)
    ensures c <= |words|
    ensures c == 0 <==> !AnyIn(words, text)
    decreases |words|
  {
    if |words| == 0 then 0
    else (if Contains(text, words[0]) then 1 else 0) + CountPresent(words[1..], text)
  }

  /** The words of a list that occur in the text. */
  ghost function PresentSet(words: seq<string>, text: string): set<string>
  {
    set w | w in words && Contains(text, w)
  }

  /** Over a list without repeats (a Python set), the count is the number of
      distinct members present, not the number of occurrences. */
  lemma {:induction false} CountIsDistinctMembersPresent(words: seq<string>, text: string)
    requires Distinct(words)
    ensures CountPresent(words, text) == |PresentSet(words, text)|
    decreases |words|
  {
    if |words| > 0 {
      var rest := words[1..];
      CountIsDistinctMembersPresent(rest, text);
      assert words[0] !in rest by {
        forall k | 0 <= k < |rest| ensures rest[k] != words[0] {
          assert rest[k] == words[k + 1];
        }
      }
      assert words == [words[0]] + rest;
      if Contains(text, words[0]) {
        assert PresentSet(words, text) == PresentSet(rest, text) + {words[0]};
      } else {
        assert PresentSet(words, text) == PresentSet(rest, text);
      }
    }
  }

  function Min(a: int, b: int): int { if a < b then a else b }

  /** `abs(a - b)`. */
  function Distance(a: int, b: int): nat { if a >= b then a - b else b - a }

  /** The neutral answer of the heuristic. */
  const NeutralEstimate := Estimate("neutral", 50)

  /** `naive_sentiment`: count distinct positive and negative words present;
      with none, neutral at 50; otherwise the majority polarity, ties going to
      positive, with confidence 50 + min(49, 10 * |p - n|). */
  function NaiveSentiment(text: string): (r: Estimate)
    ensures r == NeutralEstimate <==> !AnyIn(PositiveWords, text) && !AnyIn(NegativeWords, text)
    ensures r.polarity == "positive" <==>
              AnyIn(PositiveWords, text) && CountPresent(PositiveWords, text) >= CountPresent(NegativeWords, text)
    ensures r.polarity == "negative" <==>
              CountPresent(PositiveWords, text) < CountPresent(NegativeWords, text)
    ensures 50 <= r.score <= 99
  {
    var p := CountPresent(PositiveWords, text);
    var n := CountPresent(NegativeWords, text);
    if p == 0 && n == 0 then NeutralEstimate
    else
      var polarity := if p >= n then "positive" else "negative";
      Estimate(polarity, 50 + Min(49, 10 * Distance(p, n)))
  }

  /** The heuristic's word lists hold no repeats, so its counts are the
      numbers of distinct positive and negative words present. */
  lemma HeuristicCountsDistinctWords(text: string)
    ensures CountPresent(PositiveWords, text) == |PresentSet(PositiveWords, text)|
    ensures CountPresent(NegativeWords, text) == |PresentSet(NegativeWords, text)|
  {
    assert Distinct(PositiveWords);
    assert Distinct(NegativeWords);
    CountIsDistinctMembersPresent(PositiveWords, text);
    CountIsDistinctMembersPresent(NegativeWords, text);
  }

  /** The heuristic's confidence in terms of the distinct words present:
      outside the neutral case it is 50 plus ten per word of difference
      between the positive and the negative words present, capped at 99. */
  lemma NaiveSentimentScore(text: string)
    ensures var r := NaiveSentiment(text);
            r != NeutralEstimate ==>
              r.score == 50 + Min(49, 10 * Distance(|PresentSet(PositiveWords, text)|, |PresentSet(NegativeWords, text)|))
  {
    HeuristicCountsDistinctWords(text);
  }

  /** What the external classifier did: not loadable, raised while
      classifying, or answered with a polarity and a score (hundredths). */
  datatype ClassifierOutcome = Unavailable | Raised | Predicted(polarity: string, score: int)

  /** The adapter: the classifier's polarity lower-cased with its score, or the
      heuristic on the whole text when the classifier is missing or raised. */
  function Classify(text: string, outcome: ClassifierOutcome): (r: Estimate)
    ensures outcome.Predicted? ==> r == Estimate(Lower(outcome.polarity), outcome.score)
    ensures !outcome.Predicted? ==> r == NaiveSentiment(text)
  {
    match outcome
    case Predicted(polarity, score) => Estimate(Lower(polarity), score)
    case _ => NaiveSentiment(text)
  }

  /** The keyword override: a positive override word forces positive at 90,
      otherwise a negative one forces negative at 90, otherwise the estimate
      is kept. */
  function Override(text: string, e: Estimate): (r: Estimate)
  {
    if AnyIn(PositiveOverrides, text) then Estimate("positive", 90)
    else if AnyIn(NegativeOverrides, text) then Estimate("negative", 90)
    else e
  }

  /** When an override word is present the result does not depend on the
      classifier at all, and applying the override twice changes nothing. */
  lemma OverrideDominates(text: string, e1: Estimate, e2: Estimate)
    ensures AnyIn(PositiveOverrides, text) || AnyIn(NegativeOverrides, text) ==>
              Override(text, e1) == Override(text, e2)
    ensures Override(text, Override(text, e1)) == Override(text, e1)
  {
  }

  /** The estimate shown to the user: classify, then override. */
  function EstimateMood(text: string, outcome: ClassifierOutcome): (r: Estimate)
    ensures AnyIn(PositiveOverrides, text) ==> r == Estimate("positive", 90)
    ensures !AnyIn(PositiveOverrides, text) && AnyIn(NegativeOverrides, text) ==> r == Estimate("negative", 90)
    ensures !AnyIn(PositiveOverrides, text) && !AnyIn(NegativeOverrides, text) ==> r == Classify(text, outcome)
  {
    Override(text, Classify(text, outcome))
  }

  /** Without a classifier answer, or with an override word present, the
      label is one of "positive", "negative" and "neutral". */
  lemma HeuristicOrOverrideLabels(text: string, outcome: ClassifierOutcome)
    ensures var p := EstimateMood(text, outcome).polarity;
            !outcome.Predicted? || AnyIn(PositiveOverrides, text) || AnyIn(NegativeOverrides, text) ==>
              p == "positive" || p == "negative" || p == "neutral"
  {
    var r := NaiveSentiment(text);
    assert r == NeutralEstimate || r.polarity == "positive" || r.polarity == "negative";
  }

  /** Each of these heuristic words contains a negative override word, so
      whenever the heuristic could see it the override fires as well. */
  lemma NegativeWordTriggersOverride(text: string, w: string)
    requires w in ["疲れた", "悲しい", "無理", "だるい", "しんどい", "落ち込"]
    requires Contains(text, w)
    ensures AnyIn(NegativeOverrides, text)
  {
    var v: string;
    if w == "疲れた" { v := "疲れ"; }
    else if w == "だるい" { v := "だる"; }
    else if w == "しんどい" { v := "しんど"; }
    else { v := w; }
    assert Contains(w, v) by {
      ContainsSlice(w, 0, |v|);
      assert w[0..|v|] == v;
    }
    ContainsTransitive(text, w, v);
    assert v in NegativeOverrides;
  }
}
