/** Scoring two complete sets, the report of it, and the check of a saved report (tools/tool_definition_score.py). */
module SavedReport {
  import opened Options
  import opened ScoreGate

  /** The hash functions and the formulas of the scores. Agreement of the scorer and the check rests on nothing about
      them but that they are functions. */
  datatype Formulas = Formulas(definition: string -> string, wholeSet: multiset<string> -> string,
      record: string -> string,
                               tdqs: Scores -> real, tier: real -> string, coherence: Coherence -> real,
                               rollups: (map<string, real>, seq<string>, real) -> Result<Rollups, Refusal>)

  /** The gate's own formulas, with any hash functions. */
  function Gate(definition: string -> string, wholeSet: multiset<string> -> string, record: string -> string)
    : Formulas {
    Formulas(definition, wholeSet, record, Tdqs, Tier, CoherenceScore, RollupsOf)
  }

  /** A tool by its name, the canonical text of its definition, and what the hard gate and the cap look at. */
  datatype Tool = Tool(name: string, canonical: string, described: bool, tautological: bool)

  datatype Export = Export(tools: seq<Tool>, hashes: map<string, string>, setHash: string)

  function Names(tools: seq<Tool>): (names: seq<string>)
    ensures |names| == |tools| && forall i :: 0 <= i < |tools| ==> names[i] == tools[i].name
  {
    seq(|tools|, i requires 0 <= i < |tools| => tools[i].name)
  }

  predicate Distinct(names: seq<string>) {
    forall i, j :: 0 <= i < j < |names| ==> names[i] != names[j]
  }

  function HashesOf(f: Formulas, tools: seq<Tool>): (hashes: map<string, string>)
    ensures forall n :: n in hashes <==> n in Names(tools)
  {
    if tools == [] then map[]
    else
      var last := tools[|tools| - 1];
      assert tools == tools[..|tools| - 1] + [last];
      assert Names(tools) == Names(tools[..|tools| - 1]) + [last.name];
      HashesOf(f, tools[..|tools| - 1])[last.name := f.definition(last.canonical)]
  }

  function ToolHashes(f: Formulas, tools: seq<Tool>): seq<string> {
    seq(|tools|, i requires 0 <= i < |tools| => f.definition(tools[i].canonical))
  }

  /** An export of what tools/list returned, refused when a name comes twice. */
  function ExportOf(f: Formulas, tools: seq<Tool>): Result<Export, Refusal> {
    if !Distinct(Names(tools)) then Err(InvalidComparison)
    else Ok(Export(tools, HashesOf(f, tools), f.wholeSet(multiset(ToolHashes(f, tools)))))
  }

  // ----- Scoring a side -----

  datatype ToolResult = ToolResult(definitionHash: string, scores: Option<Scores>, tdqs: real, tier: string)

  datatype CoherenceResult = CoherenceResult(values: Option<Coherence>, score: real, tier: string)

  /** One scored side. None is what the check finds missing or not of its kind. */
  datatype Side = Side(setHash: string, versionDigest: string, tools: Option<map<string, ToolResult>>,
                       coherence: Option<CoherenceResult>, rollups: Option<Rollups>)

  /** The answers of the model: scores for a tool by name, and for the set; None when no attempt followed the
      contract. */
  datatype Answers = Answers(tools: string -> Option<Scores>, coherence: Option<Coherence>)

  const ONES := Scores(1, 1, 1, 1, 1, 1)

  function Capped(tool: Tool, s: Scores): Scores {
    if tool.tautological && s.purposeClarity > 2 then s.(purposeClarity := 2) else s
  }

  /** The scores a tool gets: all ones without a description, else the answer, its first dimension capped for a
      description that only repeats the name. */
  function ToolScores(tool: Tool, answer: Option<Scores>): (scores: Result<Scores, Refusal>)
    ensures scores.Ok? ==> ValidScores(scores.value)
  {
    if !tool.described then Ok(ONES)
    else if answer.None? || !ValidScores(answer.value) then Err(InvalidComparison)
    else Ok(Capped(tool, answer.value))
  }

  /** Every tool's scores by name, or the first refusal. */
  function SideScores(tools: seq<Tool>, answers: Answers): (scores: Result<map<string, Scores>, Refusal>)
    ensures scores.Ok? ==> forall n :: n in scores.value <==> n in Names(tools)
    ensures scores.Ok? ==> forall n :: n in scores.value ==> ValidScores(scores.value[n])
  {
    if tools == [] then Ok(map[])
    else
      var last := tools[|tools| - 1];
      assert Names(tools) == Names(tools[..|tools| - 1]) + [last.name];
      var before := SideScores(tools[..|tools| - 1], answers);
      if before.Err? then before
      else
        var scores := ToolScores(last, answers.tools(last.name));
        if scores.Err? then Err(scores.error) else Ok(before.value[last.name := scores.value])
  }

  function TdqsOf(f: Formulas, scores: map<string, Scores>): (tdqs: map<string, real>)
    ensures tdqs.Keys == scores.Keys && forall n :: n in scores ==> tdqs[n] == f.tdqs(scores[n])
  {
    map n | n in scores :: f.tdqs(scores[n])
  }

  function Results(f: Formulas, scores: map<string, Scores>, hashes: map<string, string>): map<string, ToolResult>
    requires forall n :: n in scores ==> n in hashes
  {
    map n | n in scores :: ToolResult(hashes[n], Some(scores[n]), f.tdqs(scores[n]), f.tier(f.tdqs(scores[n])))
  }

  predicate Complete(e: Export) {
    Distinct(Names(e.tools)) && e.hashes.Keys == set n | n in Names(e.tools)
  }

  /** Every tool of one complete set and the set's coherence. */
  function ScoreSide(f: Formulas, e: Export, answers: Answers, versionDigest: string): Result<Side, Refusal>
    requires Complete(e)
  {
    var scores := SideScores(e.tools, answers);
    if scores.Err? then Err(scores.error)
    else if answers.coherence.None? || !ValidCoherence(answers.coherence.value) then Err(InvalidComparison)
    else
      var coherence := f.coherence(answers.coherence.value);
      var rollups := f.rollups(TdqsOf(f, scores.value), Names(e.tools), coherence);
      if rollups.Err? then Err(rollups.error)
      else Ok(Side(e.setHash, versionDigest, Some(Results(f, scores.value, e.hashes)),
                   Some(CoherenceResult(answers.coherence, coherence, f.tier(coherence))), Some(rollups.value)))
  }

  // ----- The report -----

  datatype Pair = Pair(base: Option<Side>, head: Option<Side>)

  datatype Report = Report(decision: string, exitCode: int, versions: string, versionDigest: string,
                           base: Option<Export>, head: Option<Export>, pairs: Option<seq<Pair>>)

  function ExitCode(decision: string): Option<int> {
    if decision == "pass" then Some(0) else if decision == "block" then Some(1)
        else if decision == "invalid" then Some(2) else None
  }

  function Word(decision: Decision): string {
    if decision == Pass then "pass" else "block"
  }

  function ReportOf(f: Formulas, record: string, base: Export, head: Export, decision: string, pairs: seq<Pair>): Report
    requires ExitCode(decision).Some?
  {
    Report(decision, ExitCode(decision).value, record, f.record(record), Some(base), Some(head), Some(pairs))
  }

  predicate HasMeans(pair: Pair) {
    pair.base.Some? && pair.head.Some? && pair.base.value.rollups.Some? && pair.head.value.rollups.Some?
  }

  function MeansOf(pair: Pair): Means
    requires HasMeans(pair)
  {
    Means(pair.base.value.rollups.value.meanTdqs, pair.head.value.rollups.value.meanTdqs)
  }

  function AllMeans(pairs: seq<Pair>): (means: seq<Means>)
    requires forall i :: 0 <= i < |pairs| ==> HasMeans(pairs[i])
    ensures |means| == |pairs| && forall i :: 0 <= i < |pairs| ==> means[i] == MeansOf(pairs[i])
  {
    seq(|pairs|, i requires 0 <= i < |pairs| => MeansOf(pairs[i]))
  }

  /** Both sides of one run. */
  function ScorePair(f: Formulas, base: Export, head: Export, run: (Answers, Answers), versionDigest: string)
    : (pair: Result<Pair, Refusal>)
    requires Complete(base) && Complete(head)
    ensures pair.Ok? ==> HasMeans(pair.value)
  {
    var b := ScoreSide(f, base, run.0, versionDigest);
    if b.Err? then Err(b.error)
    else
      var h := ScoreSide(f, head, run.1, versionDigest);
      if h.Err? then Err(h.error) else Ok(Pair(Some(b.value), Some(h.value)))
  }

  /** What each of the three possible runs would give. */
  function ScoredRuns(f: Formulas, base: Export, head: Export, runs: seq<(Answers, Answers)>, versionDigest: string)
    : (scored: seq<Result<Pair, Refusal>>)
    requires Complete(base) && Complete(head)
    ensures |scored| == |runs|
    ensures forall i :: 0 <= i < |runs| ==> scored[i] == ScorePair(f, base, head, runs[i], versionDigest)
    ensures AllHaveMeans(scored)
  {
    seq(|runs|, i requires 0 <= i < |runs| => ScorePair(f, base, head, runs[i], versionDigest))
  }

  predicate AllHaveMeans(scored: seq<Result<Pair, Refusal>>) {
    forall i :: 0 <= i < |scored| && scored[i].Ok? ==> HasMeans(scored[i].value)
  }

  function RunMeans(scored: seq<Result<Pair, Refusal>>): (means: seq<Result<Means, Refusal>>)
    requires AllHaveMeans(scored)
    ensures |means| == |scored|
    ensures forall i :: 0 <= i < |scored| ==>
              means[i] == if scored[i].Ok? then Ok(MeansOf(scored[i].value)) else Err(scored[i].error)
  {
    seq(|scored|, i requires 0 <= i < |scored| => if scored[i].Ok? then Ok(MeansOf(scored[i].value))
        else Err(scored[i].error))
  }

  /** The pairs the procedure keeps of three possible runs. */
  function Confirmed(scored: seq<Result<Pair, Refusal>>): (pairs: Result<seq<Pair>, Refusal>)
    requires |scored| == 3 && AllHaveMeans(scored)
    ensures pairs.Ok? ==> |pairs.value| <= 3
    ensures pairs.Ok? ==> forall i :: 0 <= i < |pairs.value| ==>
              scored[i] == Ok(pairs.value[i]) && HasMeans(pairs.value[i])
  {
    var means := Scored(RunMeans(scored));
    if means.Err? then Err(means.error)
    else Ok(seq(|means.value|, i requires 0 <= i < |means.value| && scored[i].Ok? => scored[i].value))
  }

  /** They can always be decided, by what they score. */
  lemma ConfirmedIsDecided(scored: seq<Result<Pair, Refusal>>)
    requires |scored| == 3 && AllHaveMeans(scored) && Confirmed(scored).Ok?
    ensures Scored(RunMeans(scored)).Ok? && AllMeans(Confirmed(scored).value) == Scored(RunMeans(scored)).value
    ensures Decide(AllMeans(Confirmed(scored).value)).Ok? && Confirmed(scored).value != []
  {
    ScoredIsDecided(RunMeans(scored));
  }

  /** Score both sets and decide. `runs` is None when there is no model. */
  function Compare(f: Formulas, record: string, base: Export, head: Export, runs: Option<seq<(Answers, Answers)>>)
    : Report
    requires Complete(base) && Complete(head) && (runs.Some? ==> |runs.value| == 3)
  {
    if base.setHash == head.setHash then ReportOf(f, record, base, head, "pass", [])
    else if runs.None? then ReportOf(f, record, base, head, "invalid", [])
    else
      var scored := ScoredRuns(f, base, head, runs.value, f.record(record));
      var pairs := Confirmed(scored);
      if pairs.Err? then ReportOf(f, record, base, head, "invalid", [])
      else
        ConfirmedIsDecided(scored);
        ReportOf(f, record, base, head, Word(Decide(AllMeans(pairs.value)).value), pairs.value)
  }

  // ----- Checking a saved report -----

  function CheckExport(f: Formulas, saved: Option<Export>, e: Export): Option<Refusal> {
    if saved.None? then Some(IncompleteResult)
    else if saved.value.setHash != e.setHash || saved.value.hashes != e.hashes
        || HashesOf(f, saved.value.tools) != e.hashes then
      Some(StaleReport)
    else None
  }

  function CheckTool(f: Formulas, result: ToolResult, hash: string): Option<Refusal> {
    if result.definitionHash != hash then Some(StaleReport)
    else if result.scores.None? || !ValidScores(result.scores.value) then Some(InvalidComparison)
    else if result.tdqs != f.tdqs(result.scores.value)
        || result.tier != f.tier(f.tdqs(result.scores.value)) then Some(InvalidComparison)
    else None
  }

  /** The first refusal of a tool, in the order of the names. */
  function CheckTools(f: Formulas, results: map<string, ToolResult>, hashes: map<string, string>, names: seq<string>)
    : (refusal: Option<Refusal>)
    requires forall n :: n in names ==> n in results && n in hashes
    ensures refusal.None? <==> forall n :: n in names ==> CheckTool(f, results[n], hashes[n]).None?
  {
    if names == [] then None
    else
      var refusal := CheckTool(f, results[names[0]], hashes[names[0]]);
      if refusal.Some? then refusal else CheckTools(f, results, hashes, names[1..])
  }

  function Recomputed(f: Formulas, results: map<string, ToolResult>, names: seq<string>): map<string, real>
    requires forall n :: n in names ==> n in results && results[n].scores.Some?
  {
    map n | n in names :: f.tdqs(results[n].scores.value)
  }

  function CheckSide(f: Formulas, side: Option<Side>, e: Export, digest: string): (refusal: Option<Refusal>)
    requires Complete(e)
    ensures refusal.None? ==> side.Some? && side.value.rollups.Some?
  {
    if side.None? then Some(IncompleteResult)
    else if side.value.setHash != e.setHash || side.value.versionDigest != digest then Some(StaleReport)
    else if side.value.tools.None? then Some(IncompleteResult)
    else
      var (results, names) := (side.value.tools.value, Names(e.tools));
      if exists n :: n in names && n !in results then Some(IncompleteResult)
      else if exists n :: n in results && n !in names then Some(InvalidComparison)
      else
        var refusal := CheckTools(f, results, e.hashes, names);
        if refusal.Some? then refusal
        else if side.value.coherence.None? then Some(IncompleteResult)
        else
          var coherence := side.value.coherence.value;
          if coherence.values.None? || !ValidCoherence(coherence.values.value) then Some(IncompleteResult)
          else
            var score := f.coherence(coherence.values.value);
            if coherence.score != score || coherence.tier != f.tier(score) then Some(InvalidComparison)
            else if side.value.rollups.None? then Some(IncompleteResult)
            else
              var expected := f.rollups(Recomputed(f, results, names), names, score);
              if expected.Err? then Some(expected.error)
              else if side.value.rollups.value != expected.value then Some(InvalidComparison)
              else None
  }

  function CheckPairs(f: Formulas, pairs: seq<Pair>, base: Export, head: Export, digest: string)
    : (refusal: Option<Refusal>)
    requires Complete(base) && Complete(head)
    ensures refusal.None? <==>
      forall i :: 0 <= i < |pairs| ==>
          CheckSide(f, pairs[i].base, base, digest).None? && CheckSide(f, pairs[i].head, head, digest).None?
  {
    if pairs == [] then None
    else
      var left := CheckSide(f, pairs[0].base, base, digest);
      if left.Some? then left
      else
        var right := CheckSide(f, pairs[0].head, head, digest);
        if right.Some? then right else CheckPairs(f, pairs[1..], base, head, digest)
  }

  /** None when the report is accepted for these exports and this record. */
  function CheckReport(f: Formulas, report: Report, base: Export, head: Export, record: string): Option<Refusal>
    requires Complete(base) && Complete(head)
  {
    var digest := f.record(record);
    if report.versions != record || report.versionDigest != digest then Some(StaleReport)
    else if CheckExport(f, report.base, base).Some? then CheckExport(f, report.base, base)
    else if CheckExport(f, report.head, head).Some? then CheckExport(f, report.head, head)
    else if ExitCode(report.decision) != Some(report.exitCode) then Some(InvalidComparison)
    else if report.decision == "invalid" then None
    else if report.pairs.None? then Some(IncompleteResult)
    else if report.pairs.value == [] then
      if base.setHash != head.setHash then Some(IncompleteResult)
      else if report.decision != "pass" then Some(InvalidComparison) else None
    else
      var refusal := CheckPairs(f, report.pairs.value, base, head, digest);
      if refusal.Some? then refusal
      else
        var decision := Decide(AllMeans(report.pairs.value));
        if decision.Err? then Some(decision.error)
        else if report.decision != Word(decision.value) then Some(InvalidComparison) else None
  }
}
