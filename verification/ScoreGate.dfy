/** Scores, rollups and the confirmation procedure (tools/tool_definition_score.py). */
module ScoreGate {
  import opened Options
  import opened ScoreArithmetic
  import opened Strings

  /** Why a comparison cannot be decided. */
  datatype Refusal = IncompleteResult | StaleReport | InvalidComparison

  // ----- One tool -----

  datatype Scores = Scores(purposeClarity: int, usageGuidelines: int, behavioralTransparency: int,
      parameterSemantics: int,
                           concisenessStructure: int, contextualCompleteness: int)

  predicate ValidScores(s: Scores) {
    && 1 <= s.purposeClarity <= 5 && 1 <= s.usageGuidelines <= 5 && 1 <= s.behavioralTransparency <= 5
    && 1 <= s.parameterSemantics <= 5 && 1 <= s.concisenessStructure <= 5 && 1 <= s.contextualCompleteness <= 5
  }

  predicate NoHigher(s: Scores, t: Scores) {
    && s.purposeClarity <= t.purposeClarity && s.usageGuidelines <= t.usageGuidelines
    && s.behavioralTransparency <= t.behavioralTransparency && s.parameterSemantics <= t.parameterSemantics
    && s.concisenessStructure <= t.concisenessStructure && s.contextualCompleteness <= t.contextualCompleteness
  }

  function Weighted(s: Scores): int {
    25 * s.purposeClarity + 20 * s.usageGuidelines + 20 * s.behavioralTransparency + 15 * s.parameterSemantics
    + 10 * s.concisenessStructure + 10 * s.contextualCompleteness
  }

  function Tdqs(s: Scores): real {
    Round1(Weighted(s) as real, 100)
  }

  function Tier(score: real): string {
    if score >= 3.5 then "A" else if score >= 3.0 then "B" else if score >= 2.0 then "C" else if score >= 1.0 then "D"
        else "F"
  }

  lemma TdqsIsMonotone(s: Scores, t: Scores)
    requires NoHigher(s, t)
    ensures Tdqs(s) <= Tdqs(t)
  {
    Round1IsMonotone(Weighted(s) as real, Weighted(t) as real, 100);
  }

  /** A tool scored 1 to 5 in every dimension has a score of 1 to 5, and is in tier A exactly when its weighted mean,
      rounded to a tenth, is 3.5 or more, which is to say when the weighted sum is at least 345. */
  lemma TdqsOfValid(s: Scores)
    requires ValidScores(s)
    ensures 1.0 <= Tdqs(s) <= 5.0
    ensures Tier(Tdqs(s)) == "A" <==> Weighted(s) >= 345
  {
    Round1IsNearest(Weighted(s) as real, 100);
    var tenths := (10.0 * Tdqs(s)).Floor;
    assert 10.0 * Tdqs(s) == tenths as real;
    assert 10 * tenths - 5 <= Weighted(s) < 10 * tenths + 5;
  }

  // ----- The set -----

  datatype Coherence = Coherence(disambiguation: int, namingConsistency: int, toolCountAppropriateness: int,
      completeness: int)

  predicate ValidCoherence(c: Coherence) {
    && 1 <= c.disambiguation <= 5 && 1 <= c.namingConsistency <= 5 && 1 <= c.toolCountAppropriateness <= 5
    && 1 <= c.completeness <= 5
  }

  function CoherenceScore(c: Coherence): real {
    Round1((c.disambiguation + c.namingConsistency + c.toolCountAppropriateness + c.completeness) as real, 4)
  }

  function MeanTdqs(values: seq<real>): real
    requires values != []
  {
    Round1(Sum(values), |values|)
  }

  /** 60 % of the exact mean and 40 % of the minimum of n scores, before the division by 10 * n. */
  function Blend(sum: real, low: real, n: real): real {
    6.0 * sum + 4.0 * (n * low)
  }

  function Quality(sum: real, low: real, n: nat): real
    requires n > 0
  {
    Round1(Blend(sum, low, n as real), 10 * n)
  }

  function DescriptionQuality(values: seq<real>): real
    requires values != []
  {
    Quality(Sum(values), Minimum(values), |values|)
  }

  function OverallScore(quality: real, coherence: real): real {
    Round1(7.0 * quality + 3.0 * coherence, 10)
  }

  predicate NearestTenth(r: real, x: real) {
    IsTenths(r) && r - 0.05 <= x < r + 0.05
  }

  /** Every score is the nearest tenth, the upper one in the middle, of the mean the specification publishes: 25, 20,
      20, 15, 10 and 10 % of the dimensions, 60 % of the exact mean and 40 % of the minimum, 70 % of quality and 30 %
      of coherence. */
  lemma ScoresAreNearest(s: Scores, c: Coherence, values: seq<real>, quality: real, coherence: real)
    requires values != []
    ensures NearestTenth(Tdqs(s), 0.25 * s.purposeClarity as real + 0.2 * s.usageGuidelines as real
                                  + 0.2 * s.behavioralTransparency as real + 0.15 * s.parameterSemantics as real
                                  + 0.1 * s.concisenessStructure as real + 0.1 * s.contextualCompleteness as real)
    ensures NearestTenth(CoherenceScore(c),
              (c.disambiguation + c.namingConsistency + c.toolCountAppropriateness + c.completeness) as real / 4.0)
    ensures NearestTenth(MeanTdqs(values), Sum(values) / |values| as real)
    ensures NearestTenth(DescriptionQuality(values), 0.6 * (Sum(values) / |values| as real) + 0.4 * Minimum(values))
    ensures NearestTenth(OverallScore(quality, coherence), 0.7 * quality + 0.3 * coherence)
  {
    Round1IsNearest(Weighted(s) as real, 100);
    Round1IsNearest((c.disambiguation + c.namingConsistency + c.toolCountAppropriateness + c.completeness) as real, 4);
    Round1IsNearest(Sum(values), |values|);
    Round1IsNearest(7.0 * quality + 3.0 * coherence, 10);
    QualityIsNearest(Sum(values), Minimum(values), |values|);
  }

  lemma QualityIsNearest(sum: real, low: real, n: nat)
    requires n > 0
    ensures NearestTenth(Quality(sum, low, n), 0.6 * (sum / n as real) + 0.4 * low)
  {
    var p, c, mean := Blend(sum, low, n as real), n as real, sum / n as real;
    Round1IsNearest(p, 10 * n);
    assert sum == mean * c && (10 * n) as real == 10.0 * c;
    BlendOfMean(mean, low, c);
    Quotient(p, 0.6 * mean + 0.4 * low, 10.0 * c);
  }

  lemma BlendOfMean(mean: real, low: real, n: real)
    ensures Blend(mean * n, low, n) == (0.6 * mean + 0.4 * low) * (10.0 * n)
  {
    assert (0.6 * mean + 0.4 * low) * (10.0 * n) == 6.0 * (mean * n) + 4.0 * (n * low);
  }

  lemma MeanIsMonotone(a: seq<real>, b: seq<real>)
    requires AtMost(a, b) && a != []
    ensures MeanTdqs(a) <= MeanTdqs(b)
  {
    SumIsMonotone(a, b);
    Round1IsMonotone(Sum(a), Sum(b), |a|);
  }

  lemma QualityIsMonotone(a: seq<real>, b: seq<real>)
    requires AtMost(a, b) && a != []
    ensures DescriptionQuality(a) <= DescriptionQuality(b)
  {
    SumIsMonotone(a, b);
    MinimumIsMonotone(a, b);
    HigherQuality(Sum(a), Minimum(a), Sum(b), Minimum(b), |a|);
  }

  lemma HigherQuality(sum: real, low: real, sum': real, low': real, n: nat)
    requires n > 0 && sum <= sum' && low <= low'
    ensures Quality(sum, low, n) <= Quality(sum', low', n)
  {
    Scaled(sum, low, sum', low', n as real);
    Round1IsMonotone(Blend(sum, low, n as real), Blend(sum', low', n as real), 10 * n);
  }

  lemma Scaled(sum: real, low: real, sum': real, low': real, n: real)
    requires n >= 0.0 && sum <= sum' && low <= low'
    ensures Blend(sum, low, n) <= Blend(sum', low', n)
  {
    assert n * low' - n * low == n * (low' - low) >= 0.0;
  }

  /** Of scores that are numbers of tenths, the minimum is at most the description quality, and that is at most the
      mean. */
  lemma QualityIsBetween(values: seq<real>)
    requires values != [] && forall i :: 0 <= i < |values| ==> IsTenths(values[i])
    ensures Minimum(values) <= DescriptionQuality(values) <= MeanTdqs(values)
  {
    var low, sum, n := Minimum(values), Sum(values), |values|;
    assert IsTenths(low) by {
      var i :| 0 <= i < |values| && values[i] == low;
      assert IsTenths(values[i]);
    }
    assert low * n as real <= sum by { SumIsBounded(values, low); }
    BetweenLowAndMean(sum, low, n);
  }

  lemma BetweenLowAndMean(sum: real, low: real, n: nat)
    requires n > 0 && IsTenths(low) && low * n as real <= sum
    ensures low <= Quality(sum, low, n) <= Round1(sum, n)
  {
    var p, least := Blend(sum, low, n as real), low * (10 * n) as real;
    TenTimes(low, n as real, sum);
    Round1Keeps(least, low, 10 * n);
    assert least == low * (10.0 * n as real);
    Round1IsMonotone(least, p, 10 * n);
    Round1IsMonotone(p, 10.0 * sum, 10 * n);
    SameQuotient(sum, n);
  }

  lemma TenTimes(low: real, n: real, sum: real)
    requires low * n <= sum
    ensures low * (10.0 * n) <= Blend(sum, low, n) <= 10.0 * sum
  {
    assert low * (10.0 * n) == 10.0 * (low * n);
  }

  lemma SameQuotient(p: real, q: nat)
    requires q > 0
    ensures Round1(10.0 * p, 10 * q) == Round1(p, q)
  {
    Round1IsNearest(10.0 * p, 10 * q);
    Round1IsNearest(p, q);
    var r, c := p / q as real, q as real;
    assert p == r * c && (10 * q) as real == 10.0 * c;
    assert 10.0 * p == r * (10.0 * c);
    Quotient(10.0 * p, r, 10.0 * c);
    NearestIsUnique(r, Round1(10.0 * p, 10 * q), Round1(p, q));
  }

  // ----- The lowest tool -----

  predicate Precedes(tdqs: map<string, real>, a: string, b: string)
    requires a in tdqs && b in tdqs
  {
    tdqs[a] < tdqs[b] || (tdqs[a] == tdqs[b] && Less(a, b))
  }

  /** The tool with the lowest score, the first by name of several. */
  function MinTool(tdqs: map<string, real>, names: seq<string>): (tool: string)
    requires names != [] && forall n :: n in names ==> n in tdqs
    ensures tool in names && forall n :: n in names ==> !Precedes(tdqs, n, tool)
  {
    if |names| == 1 then
      LessIsTotal(names[0], names[0]);
      names[0]
    else
      var rest := MinTool(tdqs, names[1..]);
      MinToolStep(tdqs, names, rest);
      if Precedes(tdqs, rest, names[0]) then rest else names[0]
  }

  lemma MinToolStep(tdqs: map<string, real>, names: seq<string>, rest: string)
    requires names != [] && (forall n :: n in names ==> n in tdqs) && rest in names[1..]
    requires forall n :: n in names[1..] ==> !Precedes(tdqs, n, rest)
    ensures forall n :: n in names ==> !Precedes(tdqs, n, if Precedes(tdqs, rest, names[0]) then rest else names[0])
  {
    var first := names[0];
    forall n | n in names ensures !Precedes(tdqs, n, if Precedes(tdqs, rest, first) then rest else first) {
      assert n == first || n in names[1..];
      LessIsTotal(first, rest);
      LessIsTotal(n, rest);
      LessIsTotal(n, first);
      if Less(rest, n) && Less(n, first) { LessIsTransitive(rest, n, first); }
      if Less(n, first) && Less(first, rest) { LessIsTransitive(n, first, rest); }
    }
  }

  // ----- Rollups -----

  datatype Rollups = Rollups(toolCount: int, scoredToolCount: int, meanTdqs: real, minTdqs: real, minTool: string,
                             descriptionQualityScore: real, descriptionQualityTier: string, coherenceScore: real,
                             coherenceTier: string, overallScore: real, overallTier: string)

  function Values(tdqs: map<string, real>, names: seq<string>): (values: seq<real>)
    requires forall n :: n in names ==> n in tdqs
    ensures |values| == |names| && forall i :: 0 <= i < |names| ==> values[i] == tdqs[names[i]]
  {
    seq(|names|, i requires 0 <= i < |names| => tdqs[names[i]])
  }

  function RollupsOf(tdqs: map<string, real>, names: seq<string>, coherence: real): Result<Rollups, Refusal> {
    if names == [] || exists n :: n in names && n !in tdqs then Err(IncompleteResult)
    else
      var values := Values(tdqs, names);
      var quality := DescriptionQuality(values);
      var overall := OverallScore(quality, coherence);
      Ok(Rollups(|names|, |names|, MeanTdqs(values), Minimum(values), MinTool(tdqs, names), quality, Tier(quality),
                 coherence, Tier(coherence), overall, Tier(overall)))
  }

  /** Raising scores lowers none of the server-level numbers. */
  lemma RollupsAreMonotone(a: map<string, real>, b: map<string, real>, names: seq<string>, c: real, d: real)
    requires names != [] && (forall n :: n in names ==> n in a && n in b && a[n] <= b[n]) && c <= d
    ensures RollupsOf(a, names, c).Ok? && RollupsOf(b, names, d).Ok?
    ensures var (r, s) := (RollupsOf(a, names, c).value, RollupsOf(b, names, d).value);
            && r.meanTdqs <= s.meanTdqs && r.minTdqs <= s.minTdqs
            && r.descriptionQualityScore <= s.descriptionQualityScore && r.overallScore <= s.overallScore
  {
    var (v, w) := (Values(a, names), Values(b, names));
    MeanIsMonotone(v, w);
    MinimumIsMonotone(v, w);
    QualityIsMonotone(v, w);
    OverallIsMonotone(DescriptionQuality(v), c, DescriptionQuality(w), d);
  }

  lemma OverallIsMonotone(quality: real, coherence: real, quality': real, coherence': real)
    requires quality <= quality' && coherence <= coherence'
    ensures OverallScore(quality, coherence) <= OverallScore(quality', coherence')
  {
    Round1IsMonotone(7.0 * quality + 3.0 * coherence, 7.0 * quality' + 3.0 * coherence', 10);
  }

  /** The lowest score is the score of the tool it is named after. */
  lemma MinimumIsOfMinTool(tdqs: map<string, real>, names: seq<string>, coherence: real)
    requires RollupsOf(tdqs, names, coherence).Ok?
    ensures var r := RollupsOf(tdqs, names, coherence).value;
              r.minTool in names && r.minTool in tdqs && tdqs[r.minTool] == r.minTdqs
  {
    var values := Values(tdqs, names);
    var i :| 0 <= i < |values| && values[i] == Minimum(values);
    var tool := MinTool(tdqs, names);
    assert names[i] in names && !Precedes(tdqs, names[i], tool);
    var j :| 0 <= j < |names| && names[j] == tool;
    assert Minimum(values) <= values[j];
  }

  // ----- The decision -----

  datatype Decision = Pass | Block

  /** The mean scores of the two sides of a pair. */
  datatype Means = Means(base: real, head: real)

  function Bases(pairs: seq<Means>): (r: seq<real>)
    ensures |r| == |pairs| && forall i :: 0 <= i < |pairs| ==> r[i] == pairs[i].base
  {
    seq(|pairs|, i requires 0 <= i < |pairs| => pairs[i].base)
  }

  function Heads(pairs: seq<Means>): (r: seq<real>)
    ensures |r| == |pairs| && forall i :: 0 <= i < |pairs| ==> r[i] == pairs[i].head
  {
    seq(|pairs|, i requires 0 <= i < |pairs| => pairs[i].head)
  }

  function Decide(pairs: seq<Means>): Result<Decision, Refusal> {
    if pairs == [] then Err(IncompleteResult)
    else if pairs[0].head >= pairs[0].base then
      if |pairs| != 1 then Err(InvalidComparison) else Ok(Pass)
    else if |pairs| != 3 then Err(InvalidComparison)
    else Ok(if Median(Heads(pairs)) < Median(Bases(pairs)) then Block else Pass)
  }

  /** The pairs that are scored, of three that would be: one, and on a drop two more; or the first refusal met. */
  function Scored(runs: seq<Result<Means, Refusal>>): (scored: Result<seq<Means>, Refusal>)
    requires |runs| == 3
    ensures (forall i :: 0 <= i < 3 ==> runs[i].Ok?) ==> scored.Ok?
    ensures scored.Ok? ==> |scored.value| <= 3 && forall i :: 0 <= i < |scored.value| ==> runs[i] == Ok(scored.value[i])
  {
    if runs[0].Err? then Err(runs[0].error)
    else if runs[0].value.head >= runs[0].value.base then Ok([runs[0].value])
    else if runs[1].Err? then Err(runs[1].error)
    else if runs[2].Err? then Err(runs[2].error)
    else Ok([runs[0].value, runs[1].value, runs[2].value])
  }

  /** The procedure. It never asks for a decision on a number of pairs the rule does not know. */
  method Confirm(runs: seq<Result<Means, Refusal>>) returns (decision: Result<Decision, Refusal>, pairs: seq<Means>)
    requires |runs| == 3
    ensures decision.Ok? <==> Scored(runs).Ok?
    ensures decision.Ok? ==> Scored(runs) == Ok(pairs) && Decide(pairs) == decision && (|pairs| == 1 || |pairs| == 3)
    ensures decision.Err? ==> Scored(runs).Err? && decision.error == Scored(runs).error
  {
    pairs := [];
    if runs[0].Err? {
      return Err(runs[0].error), pairs;
    }
    pairs := [runs[0].value];
    if pairs[0].head < pairs[0].base {
      for i := 1 to 3
        invariant |pairs| == i && forall j :: 0 <= j < i ==> runs[j] == Ok(pairs[j])
      {
        if runs[i].Err? {
          return Err(runs[i].error), pairs;
        }
        pairs := pairs + [runs[i].value];
      }
      assert pairs == [pairs[0], pairs[1], pairs[2]];
    }
    decision := Decide(pairs);
  }

  /** Every scored pair set can be decided. */
  lemma ScoredIsDecided(runs: seq<Result<Means, Refusal>>)
    requires |runs| == 3 && Scored(runs).Ok?
    ensures Decide(Scored(runs).value).Ok?
  {
  }

  /** Where each base is no better and each head no worse than before, a comparison that passed still passes. */
  lemma BetterHeadsNeverBlock(before: seq<Means>, after: seq<Means>)
    requires |before| == |after| == 3
    requires forall i :: 0 <= i < 3 ==> after[i].base <= before[i].base && before[i].head <= after[i].head
    requires Decide(Scored(AllScored(before)).value) == Ok(Pass)
    ensures Decide(Scored(AllScored(after)).value) == Ok(Pass)
  {
    MedianIsMonotone(Bases(after), Bases(before));
    MedianIsMonotone(Heads(before), Heads(after));
    assert before == [before[0], before[1], before[2]] && after == [after[0], after[1], after[2]];
  }

  function AllScored(means: seq<Means>): (runs: seq<Result<Means, Refusal>>)
    ensures |runs| == |means| && forall i :: 0 <= i < |means| ==> runs[i] == Ok(means[i])
  {
    seq(|means|, i requires 0 <= i < |means| => Ok(means[i]))
  }
}
