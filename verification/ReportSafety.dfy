/** A saved report and the scorer agree, and better heads never block (tools/tool_definition_score.py). */
module ReportSafety {
  import opened Options
  import opened SavedReport
  import opened ScoreGate

  /** The export of a set that tools/list can return. */
  ghost predicate Exported(f: Formulas, e: Export) {
    ExportOf(f, e.tools) == Ok(e)
  }

  lemma ExportedIsComplete(f: Formulas, e: Export)
    requires Exported(f, e)
    ensures Complete(e) && CheckExport(f, Some(e), e).None?
  {
  }

  // ----- What an accepted side is -----

  predicate ToolsHold(f: Formulas, side: Side, e: Export)
    requires Complete(e)
  {
    && side.tools.Some? && side.tools.value.Keys == (set n | n in Names(e.tools))
    && forall n :: n in Names(e.tools) ==> n in e.hashes && CheckTool(f, side.tools.value[n], e.hashes[n]).None?
  }

  predicate CoherenceHolds(f: Formulas, side: Side) {
    && side.coherence.Some? && side.coherence.value.values.Some? && ValidCoherence(side.coherence.value.values.value)
    && var score := f.coherence(side.coherence.value.values.value);
       side.coherence.value.score == score && side.coherence.value.tier == f.tier(score)
  }

  /** The rollups that follow from the dimension scores of the side. */
  function RollupsFromScores(f: Formulas, side: Side, e: Export): Result<Rollups, Refusal>
    requires Complete(e) && ToolsHold(f, side, e) && CoherenceHolds(f, side)
  {
    f.rollups(Recomputed(f, side.tools.value, Names(e.tools)), Names(e.tools),
        f.coherence(side.coherence.value.values.value))
  }

  predicate SideHolds(f: Formulas, side: Side, e: Export, digest: string)
    requires Complete(e)
  {
    && side.setHash == e.setHash && side.versionDigest == digest && ToolsHold(f, side, e) && CoherenceHolds(f, side)
    && side.rollups.Some? && RollupsFromScores(f, side, e) == Ok(side.rollups.value)
  }

  lemma ToolsHoldExactly(f: Formulas, side: Side, e: Export)
    requires Complete(e) && side.tools.Some?
    ensures ToolsHold(f, side, e) <==>
              && (forall n :: n in Names(e.tools) ==> n in side.tools.value)
              && (forall n :: n in side.tools.value ==> n in Names(e.tools))
              && CheckTools(f, side.tools.value, e.hashes, Names(e.tools)).None?
  {
  }

  /** A side is accepted exactly when it is of this set and these versions, every tool is scored 1 to 5 with the result
      that follows, and the coherence and the rollups follow from the scores. */
  lemma SideIsAcceptedExactly(f: Formulas, side: Side, e: Export, digest: string)
    requires Complete(e)
    ensures CheckSide(f, Some(side), e, digest).None? <==> SideHolds(f, side, e, digest)
  {
    if side.tools.Some? { ToolsHoldExactly(f, side, e); }
  }

  // ----- What the scorer builds is accepted -----

  lemma ScoredToolsHold(f: Formulas, e: Export, scores: map<string, Scores>, side: Side)
    requires Complete(e) && scores.Keys == (set n | n in Names(e.tools))
              && (forall n :: n in scores ==> ValidScores(scores[n]))
    requires side.tools == Some(Results(f, scores, e.hashes))
    ensures ToolsHold(f, side, e) && Recomputed(f, side.tools.value, Names(e.tools)) == TdqsOf(f, scores)
  {
    var results := side.tools.value;
    assert results.Keys == scores.Keys;
    assert forall n :: n in Names(e.tools) ==> CheckTool(f, results[n], e.hashes[n]).None?;
    assert Recomputed(f, results, Names(e.tools)) == TdqsOf(f, scores);
  }

  lemma ScoredSideIsAccepted(f: Formulas, e: Export, answers: Answers, digest: string)
    requires Complete(e) && ScoreSide(f, e, answers, digest).Ok?
    ensures CheckSide(f, Some(ScoreSide(f, e, answers, digest).value), e, digest).None?
  {
    var side := ScoreSide(f, e, answers, digest).value;
    var scores := SideScores(e.tools, answers).value;
    assert scores.Keys == set n | n in Names(e.tools);
    ScoredToolsHold(f, e, scores, side);
    SideIsAcceptedExactly(f, side, e, digest);
  }

  lemma ScoredPairIsAccepted(f: Formulas, base: Export, head: Export, run: (Answers, Answers), digest: string)
    requires Complete(base) && Complete(head) && ScorePair(f, base, head, run, digest).Ok?
    ensures var pair := ScorePair(f, base, head, run, digest).value;
            CheckSide(f, pair.base, base, digest).None? && CheckSide(f, pair.head, head, digest).None?
  {
    ScoredSideIsAccepted(f, base, run.0, digest);
    ScoredSideIsAccepted(f, head, run.1, digest);
  }

  /** Every report a comparison makes is accepted for the same exports and the same record. */
  lemma ComparedIsAccepted(f: Formulas, record: string, base: Export, head: Export, runs: Option<seq<(Answers,
                           Answers)>>)
    requires Exported(f, base) && Exported(f, head) && (runs.Some? ==> |runs.value| == 3)
    ensures Complete(base) && Complete(head)
    ensures CheckReport(f, Compare(f, record, base, head, runs), base, head, record).None?
  {
    ExportedIsComplete(f, base);
    ExportedIsComplete(f, head);
    if base.setHash != head.setHash && runs.Some? {
      var digest := f.record(record);
      var scored := ScoredRuns(f, base, head, runs.value, digest);
      if Confirmed(scored).Ok? {
        ConfirmedIsDecided(scored);
        var pairs := Confirmed(scored).value;
        forall i | 0 <= i < |pairs|
          ensures CheckSide(f, pairs[i].base, base, digest).None? && CheckSide(f, pairs[i].head, head, digest).None?
        {
          ScoredPairIsAccepted(f, base, head, runs.value[i], digest);
        }
      }
    }
  }

  // ----- What an accepted report says -----

  /** What the dimension scores of the two sides alone give. */
  function MeansFromScores(f: Formulas, pair: Pair, base: Export, head: Export, digest: string): Means
    requires Complete(base) && Complete(head)
    requires pair.base.Some? && pair.head.Some? && SideHolds(f, pair.base.value, base, digest)
    requires SideHolds(f, pair.head.value, head, digest)
  {
    Means(RollupsFromScores(f, pair.base.value, base).value.meanTdqs,
        RollupsFromScores(f, pair.head.value, head).value.meanTdqs)
  }

  ghost predicate PairsHold(f: Formulas, pairs: seq<Pair>, base: Export, head: Export, digest: string)
    requires Complete(base) && Complete(head)
  {
    forall i :: 0 <= i < |pairs| ==>
      && pairs[i].base.Some? && pairs[i].head.Some?
      && SideHolds(f, pairs[i].base.value, base, digest) && SideHolds(f, pairs[i].head.value, head, digest)
  }

  lemma PairsAreAcceptedExactly(f: Formulas, pairs: seq<Pair>, base: Export, head: Export, digest: string)
    requires Complete(base) && Complete(head)
    ensures CheckPairs(f, pairs, base, head, digest).None? <==> PairsHold(f, pairs, base, head, digest)
  {
    forall i | 0 <= i < |pairs| && pairs[i].base.Some? && pairs[i].head.Some?
      ensures CheckSide(f, pairs[i].base, base, digest).None? <==> SideHolds(f, pairs[i].base.value, base, digest)
      ensures CheckSide(f, pairs[i].head, head, digest).None? <==> SideHolds(f, pairs[i].head.value, head, digest)
    {
      SideIsAcceptedExactly(f, pairs[i].base.value, base, digest);
      SideIsAcceptedExactly(f, pairs[i].head.value, head, digest);
    }
  }

  ghost function AllMeansFromScores(f: Formulas, pairs: seq<Pair>, base: Export, head: Export, digest: string)
    : seq<Means>
    requires Complete(base) && Complete(head) && PairsHold(f, pairs, base, head, digest)
  {
    seq(|pairs|, i requires 0 <= i < |pairs| => MeansFromScores(f, pairs[i], base, head, digest))
  }

  /** An accepted report with pairs decides what the dimension scores in it decide. */
  lemma AcceptedIsComputed(f: Formulas, report: Report, base: Export, head: Export, record: string)
    requires Complete(base) && Complete(head) && CheckReport(f, report, base, head, record).None?
    requires report.decision != "invalid" && report.pairs.Some? && report.pairs.value != []
    ensures PairsHold(f, report.pairs.value, base, head, f.record(record))
    ensures var decision := Decide(AllMeansFromScores(f, report.pairs.value, base, head, f.record(record)));
            decision.Ok? && report.decision == Word(decision.value) && report.exitCode ==
                if decision.value == Pass then 0 else 1
  {
    var pairs, digest := report.pairs.value, f.record(record);
    PairsAreAcceptedExactly(f, pairs, base, head, digest);
    assert AllMeans(pairs) == AllMeansFromScores(f, pairs, base, head, digest);
  }

  predicate SameDimensions(a: Side, b: Side) {
    && a.tools.Some? && b.tools.Some? && a.tools.value.Keys == b.tools.value.Keys
    && (forall n :: n in a.tools.value ==> a.tools.value[n].scores == b.tools.value[n].scores)
    && a.coherence.Some? && b.coherence.Some? && a.coherence.value.values == b.coherence.value.values
  }

  lemma SameDimensionsSameRollups(f: Formulas, a: Side, b: Side, e: Export, digest: string)
    requires Complete(e) && SideHolds(f, a, e, digest) && SideHolds(f, b, e, digest) && SameDimensions(a, b)
    ensures a.rollups == b.rollups
  {
    assert Recomputed(f, a.tools.value, Names(e.tools)) == Recomputed(f, b.tools.value, Names(e.tools));
  }

  ghost predicate SamePairs(p: seq<Pair>, q: seq<Pair>) {
    && |p| == |q|
    && forall i :: 0 <= i < |p| ==>
         && p[i].base.Some? && q[i].base.Some? && SameDimensions(p[i].base.value, q[i].base.value)
         && p[i].head.Some? && q[i].head.Some? && SameDimensions(p[i].head.value, q[i].head.value)
  }

  ghost predicate SameRollups(p: seq<Pair>, q: seq<Pair>) {
    && |p| == |q|
    && forall i :: 0 <= i < |p| ==>
         && p[i].base.Some? && q[i].base.Some? && p[i].base.value.rollups == q[i].base.value.rollups
         && p[i].head.Some? && q[i].head.Some? && p[i].head.value.rollups == q[i].head.value.rollups
  }

  lemma SamePairsSameRollups(f: Formulas, p: seq<Pair>, q: seq<Pair>, base: Export, head: Export, digest: string)
    requires Complete(base) && Complete(head) && PairsHold(f, p, base, head, digest)
    requires PairsHold(f, q, base, head, digest)
    requires SamePairs(p, q)
    ensures SameRollups(p, q) && AllMeans(p) == AllMeans(q)
  {
    forall i | 0 <= i < |p|
      ensures p[i].base.value.rollups == q[i].base.value.rollups && p[i].head.value.rollups == q[i].head.value.rollups
    {
      SameDimensionsSameRollups(f, p[i].base.value, q[i].base.value, base, digest);
      SameDimensionsSameRollups(f, p[i].head.value, q[i].head.value, head, digest);
    }
  }

  /** The rollups and the decision of an accepted report are functions of its dimension scores alone. */
  lemma SameDimensionsSameDecision(f: Formulas, a: Report, b: Report, base: Export, head: Export, record: string)
    requires Complete(base) && Complete(head)
    requires CheckReport(f, a, base, head, record).None? && CheckReport(f, b, base, head, record).None?
    requires a.decision != "invalid" && b.decision != "invalid" && a.pairs.Some? && b.pairs.Some?
    requires a.pairs.value != [] && SamePairs(a.pairs.value, b.pairs.value)
    ensures SameRollups(a.pairs.value, b.pairs.value) && a.decision == b.decision && a.exitCode == b.exitCode
  {
    DecisionOfAccepted(f, a, base, head, record);
    DecisionOfAccepted(f, b, base, head, record);
    SamePairsSameRollups(f, a.pairs.value, b.pairs.value, base, head, f.record(record));
    SameDecision(a, b);
  }

  /** The decision is the one the mean scores in the report lead to. */
  ghost predicate DecidedByMeans(report: Report) {
    && report.pairs.Some? && (forall i :: 0 <= i < |report.pairs.value| ==> HasMeans(report.pairs.value[i]))
    && var decision := Decide(AllMeans(report.pairs.value));
       decision.Ok? && report.decision == Word(decision.value) && Some(report.exitCode) == ExitCode(report.decision)
  }

  lemma SameDecision(a: Report, b: Report)
    requires DecidedByMeans(a) && DecidedByMeans(b) && AllMeans(a.pairs.value) == AllMeans(b.pairs.value)
    ensures a.decision == b.decision && a.exitCode == b.exitCode
  {
  }

  lemma DecisionOfAccepted(f: Formulas, report: Report, base: Export, head: Export, record: string)
    requires Complete(base) && Complete(head) && CheckReport(f, report, base, head, record).None?
    requires report.decision != "invalid" && report.pairs.Some? && report.pairs.value != []
    ensures DecidedByMeans(report) && PairsHold(f, report.pairs.value, base, head, f.record(record))
  {
    PairsAreAcceptedExactly(f, report.pairs.value, base, head, f.record(record));
  }

  // ----- Better heads never block -----

  /** Valid answers for every tool and for the set. */
  predicate Answered(tools: seq<Tool>, a: Answers) {
    && (forall i :: 0 <= i < |tools| ==> a.tools(tools[i].name).Some? && ValidScores(a.tools(tools[i].name).value))
    && a.coherence.Some? && ValidCoherence(a.coherence.value)
  }

  /** No dimension of any tool is scored higher. */
  predicate NoBetter(tools: seq<Tool>, a: Answers, b: Answers)
    requires Answered(tools, a) && Answered(tools, b)
  {
    forall i :: 0 <= i < |tools| ==> NoHigher(a.tools(tools[i].name).value, b.tools(tools[i].name).value)
  }

  lemma {:induction false} SideScoresAreMonotone(tools: seq<Tool>, a: Answers, b: Answers)
    requires Answered(tools, a) && Answered(tools, b) && NoBetter(tools, a, b)
    ensures SideScores(tools, a).Ok? && SideScores(tools, b).Ok?
    ensures forall n :: n in SideScores(tools, a).value ==>
              NoHigher(SideScores(tools, a).value[n], SideScores(tools, b).value[n])
  {
    if tools != [] {
      var before := tools[..|tools| - 1];
      assert forall i :: 0 <= i < |before| ==> before[i] == tools[i];
      SideScoresAreMonotone(before, a, b);
    }
  }

  /** The gate's own formulas, whatever the hash functions. */
  ghost predicate Genuine(f: Formulas) {
    f == Gate(f.definition, f.wholeSet, f.record)
  }

  lemma MeanOfSide(f: Formulas, e: Export, a: Answers, digest: string)
    requires Genuine(f) && Complete(e) && e.tools != [] && Answered(e.tools, a) && SideScores(e.tools, a).Ok?
    ensures var tdqs := TdqsOf(f, SideScores(e.tools, a).value);
            && ScoreSide(f, e, a, digest).Ok? && ScoreSide(f, e, a, digest).value.rollups.Some?
            && (forall n :: n in Names(e.tools) ==> n in tdqs)
            && ScoreSide(f, e, a, digest).value.rollups.value.meanTdqs == MeanTdqs(Values(tdqs, Names(e.tools)))
  {
    var tdqs := TdqsOf(f, SideScores(e.tools, a).value);
    MeanOfRollups(tdqs, Names(e.tools), f.coherence(a.coherence.value));
  }

  lemma MeanOfRollups(tdqs: map<string, real>, names: seq<string>, coherence: real)
    requires names != [] && forall n :: n in names ==> n in tdqs
    ensures RollupsOf(tdqs, names, coherence).Ok?
    ensures RollupsOf(tdqs, names, coherence).value.meanTdqs == MeanTdqs(Values(tdqs, names))
  {
  }

  lemma ValuesAreMonotone(f: Formulas, e: Export, a: Answers, b: Answers)
    requires Genuine(f) && Complete(e) && e.tools != [] && Answered(e.tools, a) && Answered(e.tools, b)
    requires NoBetter(e.tools, a, b)
    ensures SideScores(e.tools, a).Ok? && SideScores(e.tools, b).Ok?
    ensures var (v, w, names) := (TdqsOf(f, SideScores(e.tools, a).value), TdqsOf(f, SideScores(e.tools, b).value),
              Names(e.tools));
            && (forall n :: n in names ==> n in v && n in w)
            && MeanTdqs(Values(v, names)) <= MeanTdqs(Values(w, names))
  {
    SideScoresAreMonotone(e.tools, a, b);
    var (s, t, names) := (SideScores(e.tools, a).value, SideScores(e.tools, b).value, Names(e.tools));
    forall n | n in names ensures n in s && n in t && Tdqs(s[n]) <= Tdqs(t[n]) {
      TdqsIsMonotone(s[n], t[n]);
    }
    MeanIsMonotone(Values(TdqsOf(f, s), names), Values(TdqsOf(f, t), names));
  }

  lemma SideMeanIsMonotone(f: Formulas, e: Export, a: Answers, b: Answers, digest: string)
    requires Genuine(f) && Complete(e) && e.tools != [] && Answered(e.tools, a) && Answered(e.tools, b)
    requires NoBetter(e.tools, a, b)
    ensures var (r, s) := (ScoreSide(f, e, a, digest), ScoreSide(f, e, b, digest));
            && r.Ok? && s.Ok? && r.value.rollups.Some? && s.value.rollups.Some?
            && r.value.rollups.value.meanTdqs <= s.value.rollups.value.meanTdqs
  {
    ValuesAreMonotone(f, e, a, b);
    MeanOfSide(f, e, a, digest);
    MeanOfSide(f, e, b, digest);
  }

  ghost predicate AllAnswered(base: Export, head: Export, runs: seq<(Answers, Answers)>) {
    forall i :: 0 <= i < |runs| ==> Answered(base.tools, runs[i].0) && Answered(head.tools, runs[i].1)
  }

  /** In every potential run, no dimension of the base is scored higher than before, and none of the head lower. */
  ghost predicate HeadsRaised(base: Export, head: Export, before: seq<(Answers, Answers)>, after: seq<(Answers,
                              Answers)>)
    requires AllAnswered(base, head, before) && AllAnswered(base, head, after) && |before| == |after|
  {
    forall i :: 0 <= i < |before| ==>
        NoBetter(base.tools, after[i].0, before[i].0) && NoBetter(head.tools, before[i].1, after[i].1)
  }

  lemma PairMeansMove(f: Formulas, base: Export, head: Export, before: (Answers, Answers), after: (Answers,
                      Answers), digest: string)
    requires Genuine(f) && Complete(base) && Complete(head) && base.tools != [] && head.tools != []
    requires Answered(base.tools, before.0) && Answered(head.tools, before.1) && Answered(base.tools, after.0)
    requires Answered(head.tools, after.1)
    requires NoBetter(base.tools, after.0, before.0) && NoBetter(head.tools, before.1, after.1)
    ensures var (p, q) := (ScorePair(f, base, head, before, digest), ScorePair(f, base, head, after, digest));
            p.Ok? && q.Ok? && MeansOf(q.value).base <= MeansOf(p.value).base
                && MeansOf(p.value).head <= MeansOf(q.value).head
  {
    SideMeanIsMonotone(f, base, after.0, before.0, digest);
    SideMeanIsMonotone(f, head, before.1, after.1, digest);
  }

  /** Raising any dimension score of the head, or lowering any of the base, in any of the three potential pairs, never
      turns a comparison that passes into one that blocks. */
  lemma RaisingTheHeadNeverBlocks(f: Formulas, record: string, base: Export, head: Export,
                                  before: seq<(Answers, Answers)>, after: seq<(Answers, Answers)>)
    requires Genuine(f) && Complete(base) && Complete(head) && base.tools != [] && head.tools != []
    requires |before| == |after| == 3 && AllAnswered(base, head, before) && AllAnswered(base, head, after)
    requires HeadsRaised(base, head, before, after)
    requires Compare(f, record, base, head, Some(before)).decision == "pass"
    ensures Compare(f, record, base, head, Some(after)).decision == "pass"
  {
    if base.setHash != head.setHash {
      var digest := f.record(record);
      var (s, t) := (ScoredRuns(f, base, head, before, digest), ScoredRuns(f, base, head, after, digest));
      forall i | 0 <= i < 3
        ensures s[i].Ok? && t[i].Ok? && MeansOf(t[i].value).base <= MeansOf(s[i].value).base
                && MeansOf(s[i].value).head <= MeansOf(t[i].value).head
      {
        PairMeansMove(f, base, head, before[i], after[i], digest);
      }
      BetterRunsNeverBlock(s, t);
    }
  }

  lemma BetterRunsNeverBlock(before: seq<Result<Pair, Refusal>>, after: seq<Result<Pair, Refusal>>)
    requires |before| == |after| == 3 && AllHaveMeans(before) && AllHaveMeans(after)
    requires forall i :: 0 <= i < 3 ==> before[i].Ok? && after[i].Ok?
    requires forall i :: 0 <= i < 3 ==> MeansOf(after[i].value).base <= MeansOf(before[i].value).base
    requires forall i :: 0 <= i < 3 ==> MeansOf(before[i].value).head <= MeansOf(after[i].value).head
    ensures Confirmed(before).Ok? && Confirmed(after).Ok?
    ensures Decide(AllMeans(Confirmed(before).value)) == Ok(Pass) ==>
              Decide(AllMeans(Confirmed(after).value)) == Ok(Pass)
  {
    ConfirmedIsDecided(before);
    ConfirmedIsDecided(after);
    var (s, t) := (seq(3, i requires 0 <= i < 3 => MeansOf(before[i].value)),
        seq(3, i requires 0 <= i < 3 => MeansOf(after[i].value)));
    assert RunMeans(before) == AllScored(s) && RunMeans(after) == AllScored(t);
    if Decide(AllMeans(Confirmed(before).value)) == Ok(Pass) {
      BetterHeadsNeverBlock(s, t);
    }
  }
}
