/** The detector's benchmark: scores, confusion counts and the search for a threshold. */
module Detector {
  import opened Wrappers

  datatype Sample = Sample(score: real, encoded: bool)

  datatype Confusion = Confusion(truePositive: nat, falsePositive: nat, trueNegative: nat, falseNegative: nat) {

    function Total(): nat {
      truePositive + falsePositive + trueNegative + falseNegative
    }

    function Accuracy(): real {
      if Total() == 0 then 0.0 else (truePositive + trueNegative) as real / Total() as real
    }

    function FalsePositiveRate(): real {
      if falsePositive + trueNegative == 0 then 0.0
      else falsePositive as real / (falsePositive + trueNegative) as real
    }
  }

  datatype Refusal = NoSamples

  function Count(c: Confusion, encoded: bool, flagged: bool): Confusion {
    match (encoded, flagged)
    case (true, true) => c.(truePositive := c.truePositive + 1)
    case (false, true) => c.(falsePositive := c.falsePositive + 1)
    case (false, false) => c.(trueNegative := c.trueNegative + 1)
    case (true, false) => c.(falseNegative := c.falseNegative + 1)
  }

  /** `classify`: a sample is flagged if its score reaches the threshold. */
  function Classify(samples: seq<Sample>, threshold: real): Confusion {
    if samples == [] then Confusion(0, 0, 0, 0)
    else
      var last := samples[|samples| - 1];
      Count(Classify(samples[..|samples| - 1], threshold), last.encoded, last.score >= threshold)
  }

  predicate Matches(s: Sample, threshold: real, encoded: bool, reached: bool) {
    s.encoded == encoded && (s.score >= threshold) == reached
  }

  /** The samples of one kind whose score reaches the threshold, or does not. */
  function Matching(samples: seq<Sample>, threshold: real, encoded: bool, reached: bool): set<nat> {
    set i: nat | i < |samples| && Matches(samples[i], threshold, encoded, reached)
  }

  lemma MatchingGrows(samples: seq<Sample>, threshold: real, encoded: bool, reached: bool)
    requires samples != []
    ensures |samples| - 1 !in Matching(samples[..|samples| - 1], threshold, encoded, reached)
    ensures var n := |samples| - 1; var last := samples[n];
      |Matching(samples, threshold, encoded, reached)|
      == |Matching(samples[..n], threshold, encoded, reached)|
         + if Matches(last, threshold, encoded, reached) then 1 else 0
  {
    var n := |samples| - 1;
    var last, before := samples[n], Matching(samples[..n], threshold, encoded, reached);
    var after := Matching(samples, threshold, encoded, reached);
    forall i: nat ensures i in after <==> i in before || (i == n && Matches(last, threshold, encoded, reached)) {
      if i < n { assert samples[..n][i] == samples[i]; }
    }
    hide Matching;
    if Matches(last, threshold, encoded, reached) {
      assert after == before + {n};
    } else {
      assert after == before;
    }
  }

  /** The confusion counts are numbers of samples: encoded ones and clean ones, each flagged and not. */
  lemma {:induction false} ClassifyCounts(samples: seq<Sample>, threshold: real)
    ensures var c := Classify(samples, threshold);
      && c.truePositive == |Matching(samples, threshold, true, true)|
      && c.falsePositive == |Matching(samples, threshold, false, true)|
      && c.trueNegative == |Matching(samples, threshold, false, false)|
      && c.falseNegative == |Matching(samples, threshold, true, false)|
  {
    if samples == [] {
      assert forall e, r :: Matching(samples, threshold, e, r) == {};
    } else {
      ClassifyCounts(samples[..|samples| - 1], threshold);
      MatchingGrows(samples, threshold, true, true);
      MatchingGrows(samples, threshold, false, true);
      MatchingGrows(samples, threshold, false, false);
      MatchingGrows(samples, threshold, true, false);
      hide Matching;
    }
  }

  /** More accurate, or as accurate with fewer false positives. */
  predicate Better(a: Confusion, b: Confusion) {
    a.Accuracy() > b.Accuracy() || (a.Accuracy() == b.Accuracy() && a.FalsePositiveRate() < b.FalsePositiveRate())
  }

  lemma BetterIsTransitive(a: Confusion, b: Confusion, c: Confusion)
    requires !Better(a, b) && Better(c, b)
    ensures Better(c, a)
  {
  }

  // ---------------------------------------------------------------- candidates

  predicate Ascending(s: seq<real>) {
    forall i, j :: 0 <= i < j < |s| ==> s[i] < s[j]
  }

  function Insert(x: real, s: seq<real>): seq<real> {
    if s == [] then [x]
    else if x < s[0] then [x] + s
    else if x == s[0] then s
    else [s[0]] + Insert(x, s[1..])
  }

  /** The scores, sorted, each once. */
  function Thresholds(samples: seq<Sample>): seq<real> {
    if samples == [] then [] else Insert(samples[0].score, Thresholds(samples[1..]))
  }

  lemma {:induction false} InsertAscends(x: real, s: seq<real>)
    requires Ascending(s)
    ensures Ascending(Insert(x, s))
    ensures forall y :: y in Insert(x, s) <==> y == x || y in s
  {
    if s != [] && x > s[0] {
      InsertAscends(x, s[1..]);
      var t := Insert(x, s[1..]);
      forall j | 0 <= j < |t| ensures s[0] < t[j] {
        assert t[j] in t;
      }
      assert s == [s[0]] + s[1..];
    }
  }

  lemma {:induction false} ThresholdsAreScores(samples: seq<Sample>)
    ensures Ascending(Thresholds(samples))
    ensures forall y :: y in Thresholds(samples) <==> exists i :: 0 <= i < |samples| && samples[i].score == y
  {
    if samples != [] {
      var others := samples[1..];
      ThresholdsAreScores(others);
      InsertAscends(samples[0].score, Thresholds(others));
      forall y ensures y in Thresholds(samples) <==> exists i :: 0 <= i < |samples| && samples[i].score == y {
        if y in Thresholds(others) {
          var i :| 0 <= i < |others| && others[i].score == y;
          assert samples[i + 1].score == y;
        }
        if i :| 0 <= i < |samples| && samples[i].score == y {
          if i > 0 { assert others[i - 1].score == y; }
        }
      }
    }
  }

  /** No sample's score separates the two thresholds. */
  predicate SameSide(samples: seq<Sample>, a: real, b: real) {
    forall i :: 0 <= i < |samples| ==> (samples[i].score >= a <==> samples[i].score >= b)
  }

  lemma {:induction false} SameSideClassifiesAlike(samples: seq<Sample>, a: real, b: real)
    requires SameSide(samples, a, b)
    ensures Classify(samples, a) == Classify(samples, b)
  {
    if samples != [] { SameSideClassifiesAlike(samples[..|samples| - 1], a, b); }
  }

  predicate ScoreAbove(samples: seq<Sample>, t: real) {
    exists i :: 0 <= i < |samples| && samples[i].score >= t
  }

  /** The least score that reaches a threshold. */
  lemma {:induction false} NextScore(samples: seq<Sample>, t: real) returns (c: real)
    requires ScoreAbove(samples, t)
    ensures c >= t && c in Thresholds(samples)
    ensures forall i :: 0 <= i < |samples| && samples[i].score >= t ==> c <= samples[i].score
  {
    ThresholdsAreScores(samples);
    var s := Thresholds(samples);
    var i :| 0 <= i < |samples| && samples[i].score >= t;
    assert samples[i].score in s;
    var k: nat :| k < |s| && s[k] == samples[i].score;
    while k > 0 && s[k - 1] >= t
      invariant k < |s| && s[k] >= t
    {
      k := k - 1;
    }
    c := s[k];
    forall j | 0 <= j < |samples| && samples[j].score >= t ensures c <= samples[j].score {
      assert samples[j].score in s;
      var m :| 0 <= m < |s| && s[m] == samples[j].score;
    }
  }

  /** Every threshold not above all scores classifies like one of the candidates. */
  lemma CandidatesSuffice(samples: seq<Sample>, t: real)
    requires ScoreAbove(samples, t)
    ensures exists c :: c in Thresholds(samples) && Classify(samples, c) == Classify(samples, t)
  {
    var c := NextScore(samples, t);
    assert SameSide(samples, c, t);
    SameSideClassifiesAlike(samples, c, t);
  }

  // ---------------------------------------------------------------- the search

  function Samples(clean: seq<real>, encoded: seq<real>): (samples: seq<Sample>)
    ensures |samples| == |clean| + |encoded|
  {
    seq(|clean|, i requires 0 <= i < |clean| => Sample(clean[i], false))
    + seq(|encoded|, i requires 0 <= i < |encoded| => Sample(encoded[i], true))
  }

  /** The first of the best candidates. */
  predicate IsChoice(samples: seq<Sample>, candidates: seq<real>, threshold: real) {
    && threshold in candidates
    && (forall c :: c in candidates ==> !Better(Classify(samples, c), Classify(samples, threshold)))
    && (forall c :: c in candidates && c < threshold ==> Better(Classify(samples, threshold), Classify(samples, c)))
  }

  lemma ChoiceStep(samples: seq<Sample>, candidates: seq<real>, best: real, c: real)
    requires IsChoice(samples, candidates, best) && forall d :: d in candidates ==> d < c
    ensures IsChoice(
      samples, candidates + [c], if Better(Classify(samples, c), Classify(samples, best)) then c else best)
  {
    hide Classify;
    if Better(Classify(samples, c), Classify(samples, best)) {
      forall d | d in candidates ensures Better(Classify(samples, c), Classify(samples, d)) {
        BetterIsTransitive(Classify(samples, d), Classify(samples, best), Classify(samples, c));
      }
    }
  }

  /** The search of `benchmark`: the chosen threshold, and the confusion it gives, are the best among the scores. */
  method Benchmark(clean: seq<real>, encoded: seq<real>) returns (r: Result<(real, Confusion), Refusal>)
    ensures r.Failure? <==> clean == [] || encoded == []
    ensures r.Success? ==>
      var samples := Samples(clean, encoded);
      r.value.1 == Classify(samples, r.value.0) && IsChoice(samples, Thresholds(samples), r.value.0)
  {
    hide Classify, IsChoice, Better;
    if clean == [] || encoded == [] { return Failure(NoSamples); }
    var samples: seq<Sample> := [];
    for i := 0 to |clean|
      invariant samples == Samples(clean[..i], [])
    {
      samples := samples + [Sample(clean[i], false)];
    }
    for i := 0 to |encoded|
      invariant samples == Samples(clean, encoded[..i])
    {
      samples := samples + [Sample(encoded[i], true)];
    }
    assert encoded[..|encoded|] == encoded;
    var thresholds := Thresholds(samples);
    ThresholdsAreScores(samples);
    assert samples[0].score in thresholds;
    var bestThreshold := thresholds[0];
    var best := Classify(samples, bestThreshold);
    assert IsChoice(samples, thresholds[..1], bestThreshold) by { FirstChoice(samples, thresholds); }
    for i := 0 to |thresholds|
      invariant best == Classify(samples, bestThreshold)
      invariant IsChoice(samples, thresholds[..if i == 0 then 1 else i], bestThreshold)
    {
      var current := Classify(samples, thresholds[i]);
      if i == 0 {
        NeverBetterThanItself(current);
      } else {
        ChoiceStep(samples, thresholds[..i], bestThreshold, thresholds[i]);
        assert thresholds[..i] + [thresholds[i]] == thresholds[..i + 1];
      }
      if Better(current, best) {
        bestThreshold := thresholds[i];
        best := current;
      }
    }
    assert thresholds[..|thresholds|] == thresholds;
    r := Success((bestThreshold, best));
  }

  lemma FirstChoice(samples: seq<Sample>, thresholds: seq<real>)
    requires thresholds != []
    ensures IsChoice(samples, thresholds[..1], thresholds[0])
  {
  }

  lemma NeverBetterThanItself(c: Confusion)
    ensures !Better(c, c)
  {
  }

  /** The chosen threshold is the best of all real thresholds that are not above every score. */
  lemma ChoiceIsGloballyBest(samples: seq<Sample>, threshold: real, t: real)
    requires IsChoice(samples, Thresholds(samples), threshold) && ScoreAbove(samples, t)
    ensures !Better(Classify(samples, t), Classify(samples, threshold))
  {
    CandidatesSuffice(samples, t);
  }

  // ---------------------------------------------------------------- above every score

  /** Nothing flagged. */
  function AllClear(samples: seq<Sample>): Confusion {
    if samples == [] then Confusion(0, 0, 0, 0)
    else Count(AllClear(samples[..|samples| - 1]), samples[|samples| - 1].encoded, false)
  }

  lemma {:induction false} AboveAllFlagsNone(samples: seq<Sample>, t: real)
    requires !ScoreAbove(samples, t)
    ensures Classify(samples, t) == AllClear(samples)
  {
    if samples != [] {
      var front := samples[..|samples| - 1];
      assert samples[|samples| - 1].score < t;
      assert forall i :: 0 <= i < |front| ==> front[i] == samples[i];
      AboveAllFlagsNone(front, t);
    }
  }

  lemma {:induction false} SomethingAboveAll(samples: seq<Sample>) returns (t: real)
    ensures !ScoreAbove(samples, t)
  {
    if samples == [] {
      t := 0.0;
    } else {
      var front := samples[..|samples| - 1];
      var u := SomethingAboveAll(front);
      t := if u > samples[|samples| - 1].score then u else samples[|samples| - 1].score + 1.0;
      forall i | 0 <= i < |samples| ensures samples[i].score < t {
        if i < |front| { assert front[i].score < u; }
      }
    }
  }

  /** Whatever the threshold, there are as many clean and as many encoded samples. */
  lemma {:induction false} Columns(samples: seq<Sample>, t: real)
    ensures var c, none := Classify(samples, t), AllClear(samples);
      && none.truePositive == none.falsePositive == 0
      && c.falsePositive + c.trueNegative == none.trueNegative
      && c.truePositive + c.falseNegative == none.falseNegative
  {
    if samples != [] { Columns(samples[..|samples| - 1], t); }
  }

  lemma {:induction false} ReachedFlagsSome(samples: seq<Sample>, t: real)
    requires ScoreAbove(samples, t)
    ensures Classify(samples, t).truePositive + Classify(samples, t).falsePositive > 0
  {
    var front, last := samples[..|samples| - 1], samples[|samples| - 1];
    if last.score < t {
      var i :| 0 <= i < |samples| && samples[i].score >= t;
      assert front[i].score >= t;
      ReachedFlagsSome(front, t);
    }
  }

  lemma DivisionIsMonotone(a: nat, b: nat, n: nat)
    requires n > 0
    ensures a as real / n as real < b as real / n as real <==> a < b
  {
    if a < b {
      assert (b as real / n as real) - (a as real / n as real) == (b - a) as real / n as real;
    } else {
      assert (a as real / n as real) - (b as real / n as real) == (a - b) as real / n as real;
    }
  }

  /** Of two thresholds one is better exactly if it judges more samples rightly, or as many with fewer clean ones
      flagged. */
  lemma BetterIff(samples: seq<Sample>, a: real, b: real)
    ensures var x, y := Classify(samples, a), Classify(samples, b);
      var right, right' := x.truePositive + x.trueNegative, y.truePositive + y.trueNegative;
      Better(x, y) <==> right > right' || (right == right' && x.falsePositive < y.falsePositive)
  {
    Columns(samples, a);
    Columns(samples, b);
    var x, y := Classify(samples, a), Classify(samples, b);
    hide Classify, AllClear;
    assert x.Total() == y.Total();
    if x.Total() > 0 {
      DivisionIsMonotone(y.truePositive + y.trueNegative, x.truePositive + x.trueNegative, x.Total());
      DivisionIsMonotone(x.truePositive + x.trueNegative, y.truePositive + y.trueNegative, x.Total());
    }
    var clean := x.falsePositive + x.trueNegative;
    assert clean == y.falsePositive + y.trueNegative;
    if clean > 0 { DivisionIsMonotone(x.falsePositive, y.falsePositive, clean); }
  }

  /** The threshold chosen judges the most samples rightly of all that some score reaches, among those flags the fewest
      clean samples, and among those is the least score. */
  lemma ChoiceIsMostAccurate(samples: seq<Sample>, threshold: real, t: real)
    requires IsChoice(samples, Thresholds(samples), threshold) && ScoreAbove(samples, t)
    ensures var x, y := Classify(samples, threshold), Classify(samples, t);
      var right, right' := x.truePositive + x.trueNegative, y.truePositive + y.trueNegative;
      && (right > right' || (right == right' && x.falsePositive <= y.falsePositive))
      && (right == right' && x.falsePositive == y.falsePositive && t in Thresholds(samples) ==> threshold <= t)
  {
    hide Classify, Better;
    ChoiceIsGloballyBest(samples, threshold, t);
    BetterIff(samples, t, threshold);
    BetterIff(samples, threshold, t);
  }

  /** Flagging nothing beats a threshold that flags something exactly if that flags no more encoded samples than
      clean ones. */
  lemma AllClearIsBetterIff(samples: seq<Sample>, t: real)
    requires ScoreAbove(samples, t)
    ensures Better(AllClear(samples), Classify(samples, t))
       <==> Classify(samples, t).falsePositive >= Classify(samples, t).truePositive
  {
    Columns(samples, t);
    ReachedFlagsSome(samples, t);
    var c, none := Classify(samples, t), AllClear(samples);
    hide Classify, AllClear, ScoreAbove;
    DivisionIsMonotone(c.truePositive + c.trueNegative, none.trueNegative, c.Total());
    DivisionIsMonotone(none.trueNegative, c.truePositive + c.trueNegative, c.Total());
    if c.falsePositive > 0 { DivisionIsMonotone(0, c.falsePositive, none.trueNegative); }
  }

  /** A choice is the best of all real thresholds exactly if flagging nothing does not beat it. */
  lemma ChoiceIsBestIfClearIsNot(samples: seq<Sample>, threshold: real)
    requires IsChoice(samples, Thresholds(samples), threshold)
    ensures (forall t: real :: !Better(Classify(samples, t), Classify(samples, threshold)))
       <==> !Better(AllClear(samples), Classify(samples, threshold))
  {
    hide IsChoice, Better, Classify, AllClear;
    var above := SomethingAboveAll(samples);
    AboveAllFlagsNone(samples, above);
    forall t: real | !Better(AllClear(samples), Classify(samples, threshold))
      ensures !Better(Classify(samples, t), Classify(samples, threshold))
    {
      if ScoreAbove(samples, t) {
        ChoiceIsGloballyBest(samples, threshold, t);
      } else {
        AboveAllFlagsNone(samples, t);
      }
    }
  }

  lemma ScoreIsReached(samples: seq<Sample>, c: real)
    requires c in Thresholds(samples)
    ensures ScoreAbove(samples, c)
  {
    ThresholdsAreScores(samples);
    var i :| 0 <= i < |samples| && samples[i].score == c;
  }

  /** Some score flags more encoded samples than clean ones. */
  ghost predicate Separates(samples: seq<Sample>) {
    exists c :: c in Thresholds(samples) && Classify(samples, c).truePositive > Classify(samples, c).falsePositive
  }

  /** The search never tries a threshold above every score. What it chooses is the best of all real thresholds exactly
      when some sample's score flags more encoded samples than clean ones. */
  lemma ChoiceIsBestOfAllIff(samples: seq<Sample>, threshold: real)
    requires IsChoice(samples, Thresholds(samples), threshold)
    ensures (forall t: real :: !Better(Classify(samples, t), Classify(samples, threshold))) <==> Separates(samples)
  {
    ChoiceIsBestIfClearIsNot(samples, threshold);
    ScoreIsReached(samples, threshold);
    AllClearIsBetterIff(samples, threshold);
    hide Better, Classify, AllClear, Thresholds;
    forall c | c in Thresholds(samples) && Better(AllClear(samples), Classify(samples, threshold))
      ensures Classify(samples, c).truePositive <= Classify(samples, c).falsePositive
    {
      BetterIsTransitive(Classify(samples, c), Classify(samples, threshold), AllClear(samples));
      ScoreIsReached(samples, c);
      AllClearIsBetterIff(samples, c);
    }
  }

  /** A clean image that scores higher than an encoded one: flagging nothing beats every candidate. */
  lemma ChoiceCanMissTheBest()
    ensures var samples := Samples([1.0], [0.0]);
      Thresholds(samples) == [0.0, 1.0]
      && (forall t :: IsChoice(samples, Thresholds(samples), t) ==> Better(AllClear(samples), Classify(samples, t)))
  {
    var samples := Samples([1.0], [0.0]);
    assert samples == [Sample(1.0, false), Sample(0.0, true)];
    assert samples[1..] == [Sample(0.0, true)] && samples[..1] == [Sample(1.0, false)];
    assert Thresholds(samples[1..]) == [0.0];
    assert Classify(samples[..1], 0.0) == Confusion(0, 1, 0, 0);
    assert Classify(samples, 0.0) == Confusion(1, 1, 0, 0);
    assert Classify(samples[..1], 1.0) == Confusion(0, 1, 0, 0);
    assert Classify(samples, 1.0) == Confusion(0, 1, 0, 1);
    assert AllClear(samples[..1]) == Confusion(0, 0, 1, 0);
    assert AllClear(samples) == Confusion(0, 0, 1, 1);
    assert Insert(1.0, [0.0]) == [0.0] + Insert(1.0, []);
  }
}
