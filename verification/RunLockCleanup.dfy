/** The cleanup mark: a record that says a run left work behind stays until an operator clears it, exactly as long as no
    live run goes by an earlier reading of the file. */
module RunLockCleanup {
  import opened Options
  import opened RunLockRecord
  import opened RunLockProtocol
  import opened RunLockSafety
  import opened RunLockTheorems

  predicate CleanupMarked(file: File) {
    file.Full? && file.record.cleanup && file.record.version == LOCK_CLEANUP_RECORD_VERSION
  }

  /** The run at work can come to break the lock it has read: it would if it found the recorded process gone, and that
      process is not the one the run itself is executed by. */
  predicate Condemnable(id: OwnerId, run: Run) {
    && run.pc.Judging? && run.pc.seen.Some? && run.pc.seen.value.owner != Some(id)
    && StaleReason(run.pc.seen, run.actor.host, _ => false).Some?
    && run.pc.seen.value.pid != Some(run.actor.pid)
  }

  /** A run that goes by an earlier reading of the file and acts on the file next. */
  predicate Threatens(s: State, id: OwnerId) {
    && id in s.runs
    && var run := s.runs[id];
       || run.returning
       || (run.actor in s.alive && (run.pc.Breaking? || run.pc in {Unlinking, Replacing} || Condemnable(id, run)))
  }

  predicate Unthreatened(s: State) {
    forall id :: id in s.runs ==> !Threatens(s, id)
  }

  // ----- What holds in every world -----

  /** A marked record that names a run is the mark of one that is over. */
  predicate MarkIsFinal(s: State) {
    CleanupMarked(s.file) && s.file.record.owner.Some? && s.file.record.owner.value in s.runs ==>
      s.runs[s.file.record.owner.value].pc == Done && s.runs[s.file.record.owner.value].kind == Own
  }

  predicate Born(s: State, run: Run) {
    run.actor in s.born && (run.pc == Replacing ==> run.kind == Own)
  }

  ghost predicate Grounded(s: State) {
    Processes(s) && MarkIsFinal(s) && forall id :: id in s.runs ==> Born(s, s.runs[id])
  }

  lemma FinalStaysFinal(cfg: Config, s: State, step: Step)
    requires Grounded(s) && Enabled(cfg, s, step)
    ensures MarkIsFinal(Next(cfg, s, step))
  {
    if step.Replace? { assert Born(s, s.runs[step.id]); }
  }

  lemma BornStaysBorn(cfg: Config, s: State, step: Step, id: OwnerId)
    requires Grounded(s) && Enabled(cfg, s, step) && id in Next(cfg, s, step).runs
    ensures Born(Next(cfg, s, step), Next(cfg, s, step).runs[id])
  {
    assert id in s.runs ==> Born(s, s.runs[id]);
  }

  lemma StepGrounded(cfg: Config, s: State, step: Step)
    requires Grounded(s) && Enabled(cfg, s, step)
    ensures Grounded(Next(cfg, s, step))
  {
    FinalStaysFinal(cfg, s, step);
    forall id | id in Next(cfg, s, step).runs ensures Born(Next(cfg, s, step), Next(cfg, s, step).runs[id]) {
      BornStaysBorn(cfg, s, step, id);
    }
    ProcessesStay(cfg, s, step);
  }

  lemma ProcessesStay(cfg: Config, s: State, step: Step)
    requires Processes(s) && Enabled(cfg, s, step)
    ensures Processes(Next(cfg, s, step))
  {
  }

  lemma {:induction false} RunsGrounded(cfg: Config, s: State, steps: seq<Step>, t: State)
    requires Grounded(s) && Runs(cfg, s, steps, t)
    ensures Grounded(t)
    decreases steps
  {
    if steps != [] {
      StepGrounded(cfg, s, steps[0]);
      RunsGrounded(cfg, Next(cfg, s, steps[0]), steps[1..], t);
    }
  }

  lemma ReachableIsGrounded(cfg: Config, s: State)
    requires Reachable(cfg, s)
    ensures Grounded(s)
  {
    var init, steps :| Init(init) && Runs(cfg, init, steps, s);
    RunsGrounded(cfg, init, steps, s);
  }

  // ----- A mark no run threatens -----

  /** In any world: an unthreatened mark survives every step but an operator's, and stays unthreatened. */
  lemma MarkSurvivesStep(cfg: Config, s: State, step: Step)
    requires Grounded(s) && CleanupMarked(s.file) && Unthreatened(s) && Enabled(cfg, s, step) && step != Operator
    ensures Next(cfg, s, step).file == s.file && Unthreatened(Next(cfg, s, step))
  {
    var t := Next(cfg, s, step);
    FileSurvivesStep(cfg, s, step);
    forall id | id in t.runs ensures !Threatens(t, id) {
      assert id in s.runs ==> Born(s, s.runs[id]) && !Threatens(s, id);
      if step.Judge? && step.id == id {
        NotCondemned(cfg, s, id, step.running, step.wait);
      }
    }
  }

  lemma ActsOnNothing(s: State, id: OwnerId)
    requires Unthreatened(s) && id in s.runs
    ensures !s.runs[id].returning
    ensures s.runs[id].actor in s.alive ==> !s.runs[id].pc.Breaking? && s.runs[id].pc !in {Unlinking, Replacing}
  {
    assert !Threatens(s, id);
  }

  lemma FileSurvivesStep(cfg: Config, s: State, step: Step)
    requires CleanupMarked(s.file) && Unthreatened(s) && Enabled(cfg, s, step) && step != Operator
    ensures Next(cfg, s, step).file == s.file
  {
    match step
    case Break(id) => ActsOnNothing(s, id);
    case Unlink(id) => ActsOnNothing(s, id);
    case Replace(id, _) => ActsOnNothing(s, id);
    case GiveBackUnlink(id) => ActsOnNothing(s, id);
    case _ =>
  }

  lemma NotCondemned(cfg: Config, s: State, id: OwnerId, running: bool, wait: bool)
    requires Processes(s) && Enabled(cfg, s, Judge(id, running, wait)) && !Condemnable(id, s.runs[id])
    ensures !Next(cfg, s, Judge(id, running, wait)).runs[id].pc.Breaking?
  {
    var actor := s.runs[id].actor;
    assert PidRunning(s, actor.host, actor.pid);
  }

  /** A holder that does not exit inside a contender's window is never condemned by its first record. */
  lemma MarkSurvivesInTime(cfg: Config, s: State, step: Step)
    requires !cfg.lateExits && Inv(cfg, s) && CleanupMarked(s.file) && Enabled(cfg, s, step) && step != Operator
    ensures Next(cfg, s, step).file == s.file
  {
    match step
    case Break(id) => NoBreakInTime(cfg, s, id);
    case Unlink(id) => MarkedOwnerIsDone(cfg, s, id);
    case Replace(id, _) => MarkedOwnerIsDone(cfg, s, id);
    case GiveBackUnlink(id) => MarkedOwnerIsDone(cfg, s, id);
    case _ =>
  }

  lemma NoBreakInTime(cfg: Config, s: State, id: OwnerId)
    requires !cfg.lateExits && Inv(cfg, s) && Enabled(cfg, s, Break(id))
    ensures !CleanupMarked(s.file)
  {
    assert RunOk(cfg, s, id);
  }

  lemma MarkedOwnerIsDone(cfg: Config, s: State, id: OwnerId)
    requires Inv(cfg, s) && CleanupMarked(s.file) && id in s.runs && s.runs[id].holder in s.alive
    ensures !Holds(s, id)
    ensures s.runs[id].published ==> s.runs[id].pc == Done && s.runs[id].kind == Own
  {
    assert RunOk(cfg, s, id);
  }

  /** No live run goes by an earlier reading, or none finds the process it read about gone too late. */
  predicate Safe(cfg: Config, s: State) {
    !cfg.lateExits || Unthreatened(s)
  }

  lemma {:induction false} MarkSurvives(cfg: Config, s: State, steps: seq<Step>, t: State)
    requires Grounded(s) && (!cfg.lateExits ==> Inv(cfg, s)) && CleanupMarked(s.file) && Safe(cfg, s)
    requires Runs(cfg, s, steps, t) && Operator !in steps
    ensures t.file == s.file
    decreases steps
  {
    if steps != [] {
      var next := Next(cfg, s, steps[0]);
      StepGrounded(cfg, s, steps[0]);
      if cfg.lateExits {
        MarkSurvivesStep(cfg, s, steps[0]);
      } else {
        MarkSurvivesInTime(cfg, s, steps[0]);
        ExclusiveFindsItsLock(cfg, s, steps[0]);
        StepInv(cfg, s, steps[0]);
      }
      MarkSurvives(cfg, next, steps[1..], t);
    }
  }

  /** From a safe mark on, until an operator clears it, nobody holds the machine. */
  lemma MarkedMachineStaysClosed(cfg: Config, s: State, steps: seq<Step>, t: State)
    requires Exclusive(cfg) && Reachable(cfg, s) && CleanupMarked(s.file) && Safe(cfg, s)
    requires Runs(cfg, s, steps, t) && Operator !in steps
    ensures t.file == s.file && forall id :: !Holds(t, id)
  {
    ReachableIsGrounded(cfg, s);
    ReachableInv(cfg, s);
    MarkSurvives(cfg, s, steps, t);
    ExclusiveRuns(cfg, s, steps, t);
    RunsInv(cfg, s, steps, t);
    forall id | id in t.runs && t.runs[id].holder in t.alive ensures !Holds(t, id) {
      MarkedOwnerIsDone(cfg, t, id);
    }
  }

  // ----- A mark some run threatens -----

  /** Steps without the operator that end with the file removed or replaced. */
  ghost predicate Loses(cfg: Config, s: State, steps: seq<Step>, t: State) {
    Runs(cfg, s, steps, t) && Operator !in steps && t.file != s.file
  }

  lemma LostAtOnce(cfg: Config, s: State, step: Step)
    requires Enabled(cfg, s, step) && step != Operator && Next(cfg, s, step).file != s.file
    ensures Loses(cfg, s, [step], Next(cfg, s, step))
  {
    RunsLast(cfg, s, step);
  }

  lemma LostLater(cfg: Config, s: State, step: Step, steps: seq<Step>, t: State)
    requires Enabled(cfg, s, step) && step != Operator && Next(cfg, s, step).file == s.file
    requires Loses(cfg, Next(cfg, s, step), steps, t)
    ensures Loses(cfg, s, [step] + steps, t)
  {
    RunsLast(cfg, s, step);
    RunsConcat(cfg, s, [step], Next(cfg, s, step), steps, t);
  }

  /** A run that judges a lock whose process is gone condemns it and breaks whatever is there by then. */
  lemma CondemnedIsLost(cfg: Config, s: State, id: OwnerId) returns (steps: seq<Step>, t: State)
    requires s.file != Absent && Acts(s, id) && Condemnable(id, s.runs[id])
    requires ProvablyDead(s, s.runs[id].pc.seen.value, s.runs[id].actor.host)
    ensures Loses(cfg, s, steps, t)
  {
    var judged := Next(cfg, s, Judge(id, false, true));
    t := Next(cfg, judged, Break(id));
    LostAtOnce(cfg, judged, Break(id));
    LostLater(cfg, s, Judge(id, false, true), [Break(id)], t);
    steps := [Judge(id, false, true)] + [Break(id)];
  }

  lemma GivingBackIsLost(cfg: Config, s: State, id: OwnerId) returns (steps: seq<Step>, t: State)
    requires s.file != Absent && id in s.runs && s.runs[id].returning
    ensures Loses(cfg, s, steps, t)
  {
    steps, t := [GiveBackUnlink(id)], Next(cfg, s, GiveBackUnlink(id));
    LostAtOnce(cfg, s, GiveBackUnlink(id));
  }

  /** The process a judging run has read about exits, or gives the machine back first. */
  lemma CondemnableIsLost(cfg: Config, s: State, id: OwnerId) returns (steps: seq<Step>, t: State)
    requires cfg.lateExits && Grounded(s) && s.file != Absent && Acts(s, id) && Condemnable(id, s.runs[id])
    ensures Loses(cfg, s, steps, t)
  {
    var (record, here) := (s.runs[id].pc.seen.value, s.runs[id].actor.host);
    if ProvablyDead(s, record, here) {
      steps, t := CondemnedIsLost(cfg, s, id);
      return;
    }
    var p :| p in s.alive && p.host == here && p.pid == record.pid.value;
    if holding :| holding in s.runs && s.runs[holding].holder == p && s.runs[holding].returning {
      steps, t := GivingBackIsLost(cfg, s, holding);
    } else {
      var gone := Next(cfg, s, Exit(p));
      assert !PidRunning(gone, here, record.pid.value);
      steps, t := CondemnedIsLost(cfg, gone, id);
      LostLater(cfg, s, Exit(p), steps, t);
      steps := [Exit(p)] + steps;
    }
  }

  lemma ThreatenedIsLost(cfg: Config, s: State, id: OwnerId) returns (steps: seq<Step>, t: State)
    requires cfg.lateExits && Grounded(s) && CleanupMarked(s.file) && Threatens(s, id)
    ensures Loses(cfg, s, steps, t)
  {
    var run := s.runs[id];
    if run.returning {
      steps, t := GivingBackIsLost(cfg, s, id);
    } else if Condemnable(id, run) {
      steps, t := CondemnableIsLost(cfg, s, id);
    } else {
      assert Born(s, run);
      var step := if run.pc.Breaking? then Break(id) else if run.pc == Unlinking then Unlink(id) else Replace(id, true);
      LostAtOnce(cfg, s, step);
      steps, t := [step], Next(cfg, s, step);
    }
  }

  /** In every world: only an operator clears a mark, whatever happens from here on, exactly when no live run goes by an
      earlier reading of the file, or no holder exits inside a contender's window. */
  lemma MarkSurvivesExactly(cfg: Config, s: State)
    requires Reachable(cfg, s) && CleanupMarked(s.file)
    ensures (forall steps, t :: Runs(cfg, s, steps, t) && Operator !in steps ==> t.file == s.file) <==> Safe(cfg, s)
  {
    ReachableIsGrounded(cfg, s);
    if Safe(cfg, s) {
      if !cfg.lateExits { ReachableInv(cfg, s); }
      forall steps, t | Runs(cfg, s, steps, t) && Operator !in steps ensures t.file == s.file {
        MarkSurvives(cfg, s, steps, t);
      }
    } else {
      var id :| id in s.runs && Threatens(s, id);
      var steps, t := ThreatenedIsLost(cfg, s, id);
      assert Runs(cfg, s, steps, t) && Operator !in steps;
    }
  }
}
