/** The loop of implementing and reviewing, and what its exit says about work no review has read
    (tools/agent_review_loop.py). */
module ReviewLoop {
  import opened FlatRounds
  import opened Options
  import opened StalledWork

  datatype Settings = Settings(startWithReview: bool, maxRounds: nat, continueOnNoCommit: bool, stallRetry: bool,
                               stopAfterFlatRounds: nat)

  datatype Verdict = Verdict(clean: bool, findings: int)

  /** What a round gives the loop: an error of the implementer, or its effect on the tree and then a verdict, None for
      an error of the reviewing agent. */
  datatype Answer = Failed | Implemented(round: Round, verdict: Option<Verdict>)

  datatype Exit = Clean | RoundsExhausted | Stalled | Error | NoProgress

  function Code(exit: Exit): (code: int)
    ensures code == 0 <==> exit == Clean
  {
    match exit
    case Clean => 0
    case RoundsExhausted => 1
    case Stalled => 2
    case Error => 3
    case NoProgress => 4
  }

  /** What the loop carries from round to round: the outstanding paths and the findings of every review. */
  datatype State = State(outstanding: set<Path>, findings: seq<int>)

  // ----- The loop as a function -----

  /** The state after a round, and the exit that ends the run there, if any. */
  function AfterRound(s: Settings, dirt: set<Path>, st: State, answer: Answer): (Option<Exit>, State) {
    match answer
    case Failed => (Some(Error), st)
    case Implemented(r, verdict) =>
      var outstanding := Reconcile(st.outstanding, r, s.stallRetry);
      var now := State(outstanding, st.findings);
      if Destroyed(r, dirt) != {} || (!Commits(r, s.stallRetry) && !s.continueOnNoCommit) then (Some(Stalled), now)
      else if verdict.None? then (Some(Error), now)
      else
        var v := verdict.value;
        var reviewed := State(outstanding, st.findings + [v.findings]);
        if v.clean then (Some(if outstanding == {} then Clean else Stalled), reviewed)
        else if s.stopAfterFlatRounds > 0
            && Flat(Known(reviewed.findings)) >= s.stopAfterFlatRounds then (Some(NoProgress), reviewed)
        else (None, reviewed)
  }

  /** How the rounds end the run, the final state, and how many of them were carried out. */
  function RunFrom(s: Settings, dirt: set<Path>, st: State, answers: seq<Answer>): (Exit, State, nat)
    decreases |answers|
  {
    if answers == [] then (RoundsExhausted, st, 0)
    else
      var after := AfterRound(s, dirt, st, answers[0]);
      if after.0.Some? then (after.0.value, after.1, 1)
      else
        var rest := RunFrom(s, dirt, after.1, answers[1..]);
        (rest.0, rest.1, rest.2 + 1)
  }

  /** A whole run. `initial` is the verdict on the commits a review-first run starts with. */
  function Run(s: Settings, dirt: set<Path>, initial: Option<Verdict>, answers: seq<Answer>): (Exit, State, nat)
    requires |answers| == s.maxRounds
  {
    if !s.startWithReview then RunFrom(s, dirt, State({}, []), answers)
    else if initial.None? then (Error, State({}, []), 0)
    else if initial.value.clean then (Clean, State({}, [initial.value.findings]), 0)
    else RunFrom(s, dirt, State({}, [initial.value.findings]), answers)
  }

  // ----- The loop -----

  method Loop(s: Settings, dirt: set<Path>, initial: Option<Verdict>, answers: seq<Answer>)
    returns (exitCode: Exit, outstandingPaths: set<Path>, findings: seq<int>)
    requires |answers| == s.maxRounds
    ensures var run := Run(s, dirt, initial, answers);
            exitCode == run.0 && outstandingPaths == run.1.outstanding && findings == run.1.findings
  {
    exitCode, outstandingPaths, findings := RoundsExhausted, {}, [];
    if s.startWithReview {
      if initial.None? {
        return Error, {}, [];
      }
      var verdict := initial.value;
      findings := [verdict.findings];
      if verdict.clean {
        return Clean, {}, findings;
      }
    }
    var number := 0;
    ghost var run := RunFrom(s, dirt, State({}, findings), answers);
    assert answers[0..] == answers;
    while number < s.maxRounds
      invariant 0 <= number <= s.maxRounds && exitCode == RoundsExhausted
      invariant run.0 == RunFrom(s, dirt, State(outstandingPaths, findings), answers[number..]).0
      invariant run.1 == RunFrom(s, dirt, State(outstandingPaths, findings), answers[number..]).1
    {
      var answer := answers[number];
      assert answers[number..][0] == answer && answers[number..][1..] == answers[number + 1..];
      number := number + 1;
      if answer.Failed? {
        exitCode := Error;
        break;
      }
      var r := answer.round;
      outstandingPaths := Reconcile(outstandingPaths, r, s.stallRetry);
      var destroyed := Destroyed(r, dirt);
      if !Commits(r, s.stallRetry) && !s.continueOnNoCommit && destroyed == {} {
        exitCode := Stalled;
        break;
      }
      if destroyed != {} {
        exitCode := Stalled;
        break;
      }
      if answer.verdict.None? {
        exitCode := Error;
        break;
      }
      var verdict := answer.verdict.value;
      findings := findings + [verdict.findings];
      if verdict.clean {
        exitCode := if outstandingPaths != {} then Stalled else Clean;
        break;
      }
      var flat := RoundsWithoutProgress(findings);
      if s.stopAfterFlatRounds > 0 && flat >= s.stopAfterFlatRounds {
        exitCode := NoProgress;
        break;
      }
    }
  }

  // ----- Work no review has read -----

  /** A path for each round the object is at when the round begins, and one for the end. */
  ghost predicate Trail(answers: seq<Answer>, trail: seq<Path>) {
    && |trail| == |answers| + 1
    && forall k :: 0 <= k < |answers| && answers[k].Implemented? ==> Follows(answers[k].round, trail[k], trail[k + 1])
  }

  /** No clean exit while outstanding work is moved about in ways the loop means to follow. */
  lemma {:induction false} OutstandingWorkIsNeverClean(s: Settings, dirt: set<Path>, st: State,
                                                       answers: seq<Answer>, trail: seq<Path>)
    requires Trail(answers, trail) && trail[0] in st.outstanding
    ensures RunFrom(s, dirt, st, answers).0 != Clean
    decreases |answers|
  {
    if answers != [] && answers[0].Implemented? {
      WorkStaysOutstanding(st.outstanding, answers[0].round, s.stallRetry, trail[0], trail[1]);
      var after := AfterRound(s, dirt, st, answers[0]);
      assert Trail(answers[1..], trail[1..]);
      OutstandingWorkIsNeverClean(s, dirt,
          State(Reconcile(st.outstanding, answers[0].round, s.stallRetry), after.1.findings),
                                  answers[1..], trail[1..]);
    }
  }

  /** The same from the round that leaves the work: whatever is carried into it, the run does not end clean. */
  lemma LeftWorkIsNeverClean(s: Settings, dirt: set<Path>, st: State, answers: seq<Answer>, trail: seq<Path>)
    requires answers != [] && answers[0].Implemented? && Trail(answers[1..], trail)
    requires Leaves(answers[0].round, s.stallRetry, trail[0])
    ensures RunFrom(s, dirt, st, answers).0 != Clean
  {
    LeftWorkIsOutstanding(st.outstanding, answers[0].round, s.stallRetry, trail[0]);
    var after := AfterRound(s, dirt, st, answers[0]);
    OutstandingWorkIsNeverClean(s, dirt, after.1, answers[1..], trail);
  }

  /** The run from round i on is a run. */
  lemma {:induction false} RunResumes(s: Settings, dirt: set<Path>, st: State, answers: seq<Answer>, i: nat)
    returns (at: State)
    requires i < RunFrom(s, dirt, st, answers).2
    ensures i < |answers| && RunFrom(s, dirt, st, answers).0 == RunFrom(s, dirt, at, answers[i..]).0
    ensures RunFrom(s, dirt, st, answers).2 == i + RunFrom(s, dirt, at, answers[i..]).2
    decreases |answers|
  {
    if i == 0 {
      at := st;
      assert answers[0..] == answers;
    } else {
      var after := AfterRound(s, dirt, st, answers[0]);
      at := RunResumes(s, dirt, after.1, answers[1..], i - 1);
      assert answers[1..][i - 1..] == answers[i..];
    }
  }

  /** A run in which any round that was carried out leaves work behind does not end clean, as long as the rounds after
      it move that work in ways the loop means to follow. */
  lemma NoCleanExitOverLeftWork(s: Settings, dirt: set<Path>, initial: Option<Verdict>, answers: seq<Answer>,
                                i: nat, trail: seq<Path>)
    requires |answers| == s.maxRounds && i < |answers| && i < Run(s, dirt, initial, answers).2
    requires answers[i].Implemented? && Trail(answers[i + 1..], trail)
    requires Leaves(answers[i].round, s.stallRetry, trail[0])
    ensures Run(s, dirt, initial, answers).0 != Clean
  {
    var start := State({}, if s.startWithReview then [initial.value.findings] else []);
    var at := RunResumes(s, dirt, start, answers, i);
    assert answers[i..][0] == answers[i] && answers[i..][1..] == answers[i + 1..];
    LeftWorkIsNeverClean(s, dirt, at, answers[i..], trail);
  }

  /** What each exit says about the last round that was carried out, and about what is left. */
  ghost predicate Explains(s: Settings, dirt: set<Path>, answers: seq<Answer>, exit: Exit, end: State, n: nat) {
    && n <= |answers|
    && (exit == RoundsExhausted ==> n == |answers|)
    && (exit != RoundsExhausted ==> n > 0)
    && (n > 0 ==>
          var last := answers[n - 1];
          match exit
          case Clean => Verdicted(last) && last.verdict.value.clean && end.outstanding == {}
          case Error => last.Failed? || last.verdict.None?
          case NoProgress => s.stopAfterFlatRounds > 0 && Flat(Known(end.findings)) >= s.stopAfterFlatRounds
          case Stalled => last.Implemented?
                          && (|| Destroyed(last.round, dirt) != {}
                              || (!Commits(last.round, s.stallRetry) && !s.continueOnNoCommit)
                              || (Verdicted(last) && last.verdict.value.clean && end.outstanding != {}))
          case RoundsExhausted => Verdicted(last) && !last.verdict.value.clean)
  }

  predicate Verdicted(answer: Answer) {
    answer.Implemented? && answer.verdict.Some?
  }

  lemma {:induction false} ExitsAreExplained(s: Settings, dirt: set<Path>, st: State, answers: seq<Answer>)
    ensures var (exit, end, n) := RunFrom(s, dirt, st, answers); Explains(s, dirt, answers, exit, end, n)
    decreases |answers|
  {
    if answers != [] {
      var after := AfterRound(s, dirt, st, answers[0]);
      if after.0.None? {
        ExitsAreExplained(s, dirt, after.1, answers[1..]);
      }
    }
  }

  // ----- The operator's own work -----

  /** In a run that ends neither as stalled nor with an error, whatever is gone of a file the operator had dirty was
      overwritten where it stands: none left the dirty set with its content lost. */
  lemma {:induction false} NoFileLeavesWithItsContent(s: Settings, dirt: set<Path>, st: State, answers: seq<Answer>,
                                                      i: nat, p: Path)
    requires var (exit, _, n) := RunFrom(s, dirt, st, answers); exit != Stalled && exit != Error && i < n
    requires p in dirt
    ensures i < |answers| && answers[i].Implemented?
    ensures Gone(answers[i].round, p) ==> Overwritten(answers[i].round, p)
    decreases |answers|
  {
    var after := AfterRound(s, dirt, st, answers[0]);
    if i == 0 {
      assert p !in Destroyed(answers[0].round, dirt);
    } else {
      NoFileLeavesWithItsContent(s, dirt, after.1, answers[1..], i - 1, p);
    }
  }

  /** A round that commits something else and writes over what the operator had at p. */
  function OverwritingRound(p: Path, was: Blob, now: Blob): Round {
    Round(Tree({p}, map[p := was], map[], {p}), Tree({p}, map[p := now], map[], {p}), map[], false, true, false, {})
  }

  /** And that happens without a word: the run ends clean, whatever its settings, with the operator's content gone. */
  lemma OverwriteEndsClean(s: Settings, p: Path, was: Blob, now: Blob, findings: int, rest: seq<Answer>)
    requires was != now
    ensures var r := OverwritingRound(p, was, now);
            && Gone(r, p)
            && RunFrom(s, {p}, State({}, []), [Implemented(r, Some(Verdict(true, findings)))] + rest).0 == Clean
  {
    var r := OverwritingRound(p, was, now);
    var answer := Implemented(r, Some(Verdict(true, findings)));
    assert Inherited(r, p) == Some(was) && BlobAt(r.after.blobs, p) == Some(now);
    OverwriteUnnoticedExactly({}, r, s.stallRetry, {p}, p);
    assert Destroyed(r, {p}) == {} && Reconcile({}, r, s.stallRetry) == {};
    assert ([answer] + rest)[0] == answer;
  }

  /** A file that every round leaves alone is never outstanding: the operator's own work stalls no run. */
  lemma {:induction false} LeftAloneIsNeverOutstanding(s: Settings, dirt: set<Path>, st: State,
                                                       answers: seq<Answer>, q: Path)
    requires q !in st.outstanding
    requires forall i :: 0 <= i < |answers| && answers[i].Implemented? ==> LeavesAlone(answers[i].round, q)
    ensures q !in RunFrom(s, dirt, st, answers).1.outstanding
    decreases |answers|
  {
    if answers != [] {
      if answers[0].Implemented? {
        LeftAloneIsNotOutstanding(st.outstanding, answers[0].round, s.stallRetry, q);
      }
      LeftAloneIsNeverOutstanding(s, dirt, AfterRound(s, dirt, st, answers[0]).1, answers[1..], q);
    }
  }

  // ----- How long it takes -----

  predicate Counted(answer: Answer) {
    answer.Implemented? && answer.verdict.Some? ==> answer.verdict.value.findings >= 0
  }

  lemma {:induction false} AllKnown(findings: seq<int>)
    requires forall i :: 0 <= i < |findings| ==> findings[i] >= 0
    ensures Known(findings) == findings
  {
    if findings != [] {
      AllKnown(findings[..|findings| - 1]);
    }
  }

  /** No review before the last was the k-th in a row without progress. */
  ghost predicate Bounded(k: nat, findings: seq<int>) {
    && (forall i :: 0 <= i < |findings| ==> findings[i] >= 0)
    && forall n :: 1 <= n < |findings| ==> Flat(Known(findings[..n])) < k
  }

  lemma OneMoreReview(k: nat, findings: seq<int>, count: int)
    requires Bounded(k, findings) && count >= 0 && (findings != [] ==> Flat(Known(findings)) < k)
    ensures Bounded(k, findings + [count])
  {
    var more := findings + [count];
    forall n | 1 <= n < |more| ensures Flat(Known(more[..n])) < k {
      assert more[..n] == findings[..n];
      assert findings[..|findings|] == findings;
    }
  }

  /** What a round adds to the findings, and what it takes to go on. */
  lemma FindingsAfterRound(s: Settings, dirt: set<Path>, st: State, answer: Answer)
    ensures var (exit, now) := AfterRound(s, dirt, st, answer);
            && (now.findings == st.findings
                || (Verdicted(answer) && now.findings == st.findings + [answer.verdict.value.findings]))
            && (exit.None? ==> now.findings != st.findings)
            && (exit.None? && s.stopAfterFlatRounds > 0 ==> Flat(Known(now.findings)) < s.stopAfterFlatRounds)
  {
  }

  lemma OneRoundIsBounded(s: Settings, dirt: set<Path>, st: State, answer: Answer)
    requires s.stopAfterFlatRounds > 0 && Counted(answer) && Bounded(s.stopAfterFlatRounds, st.findings)
    requires st.findings != [] ==> Flat(Known(st.findings)) < s.stopAfterFlatRounds
    ensures var after := AfterRound(s, dirt, st, answer);
            && Bounded(s.stopAfterFlatRounds, after.1.findings)
            && (after.0.None? ==> Flat(Known(after.1.findings)) < s.stopAfterFlatRounds)
  {
    FindingsAfterRound(s, dirt, st, answer);
    if Verdicted(answer) {
      OneMoreReview(s.stopAfterFlatRounds, st.findings, answer.verdict.value.findings);
    }
  }

  lemma {:induction false} ReviewsAreBounded(s: Settings, dirt: set<Path>, st: State, answers: seq<Answer>)
    requires s.stopAfterFlatRounds > 0 && (forall i :: 0 <= i < |answers| ==> Counted(answers[i]))
    requires Bounded(s.stopAfterFlatRounds, st.findings)
    requires st.findings != [] ==> Flat(Known(st.findings)) < s.stopAfterFlatRounds
    ensures Bounded(s.stopAfterFlatRounds, RunFrom(s, dirt, st, answers).1.findings)
    decreases |answers|
  {
    if answers != [] {
      OneRoundIsBounded(s, dirt, st, answers[0]);
      var after := AfterRound(s, dirt, st, answers[0]);
      if after.0.None? {
        ReviewsAreBounded(s, dirt, after.1, answers[1..]);
      }
    }
  }

  lemma BoundedMeansFew(k: nat, findings: seq<int>)
    requires Bounded(k, findings) && findings != []
    ensures findings[0] >= 0 && |findings| <= (findings[0] + 1) * k + 1
  {
    var before := findings[..|findings| - 1];
    if before == [] {
      assert (findings[0] + 1) * k >= 0;
    } else {
      forall n | 1 <= n <= |before| ensures Flat(before[..n]) < k {
        AllKnown(before[..n]);
        assert before[..n] == findings[..n];
      }
      AtMost(before, k);
    }
  }

  /** With reviews that all carry a count, the first of them c, at most (c + 1) * k + 1 reviews are made when k without
      progress end the run, however many rounds are allowed. */
  lemma AtMostSoManyReviews(s: Settings, dirt: set<Path>, initial: Option<Verdict>, answers: seq<Answer>)
    requires |answers| == s.maxRounds && s.stopAfterFlatRounds > 0
    requires initial.Some? ==> initial.value.findings >= 0
    requires forall i :: 0 <= i < |answers| ==> Counted(answers[i])
    ensures var findings := Run(s, dirt, initial, answers).1.findings;
            findings != [] ==> findings[0] >= 0 && |findings| <= (findings[0] + 1) * s.stopAfterFlatRounds + 1
  {
    var start := State({}, if s.startWithReview && initial.Some? then [initial.value.findings] else []);
    var findings := Run(s, dirt, initial, answers).1.findings;
    AllKnown(start.findings);
    ReviewsAreBounded(s, dirt, start, answers);
    if findings != [] {
      BoundedMeansFew(s.stopAfterFlatRounds, findings);
    }
  }
}
