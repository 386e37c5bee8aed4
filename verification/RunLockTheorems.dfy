/** What the run lock promises, over all runs of the protocol, and exactly when it keeps the promise. */
module RunLockTheorems {
  import opened Options
  import opened RunLockRecord
  import opened RunLockProtocol
  import opened RunLockSafety

  /** A break removes the lock that was condemned, or finds nothing. */
  ghost predicate FindsItsLock(s: State, step: Step) {
    step.Break? ==> FindsCondemned(s, step.id)
  }

  lemma ExclusiveFindsItsLock(cfg: Config, s: State, step: Step)
    requires Exclusive(cfg) && Inv(cfg, s) && Enabled(cfg, s, step)
    ensures FindsItsLock(s, step)
  {
    if step.Break? { BreakFindsCondemned(cfg, s, step.id); }
  }

  /** Every step of every process keeps the invariant, whatever the world, where breaks remove what they condemned. */
  lemma StepInv(cfg: Config, s: State, step: Step)
    requires Inv(cfg, s) && Enabled(cfg, s, step) && FindsItsLock(s, step)
    ensures Inv(cfg, Next(cfg, s, step))
  {
    match step
    case Spawn(p) => SpawnInv(cfg, s, p);
    case Exit(p) => ExitInv(cfg, s, p);
    case Start(_, _, _, _) => StartInv(cfg, s, step);
    case Enter(id) => EnterInv(cfg, s, id);
    case Link(id) => LinkInv(cfg, s, id);
    case Confirm(id, readable) => ConfirmInv(cfg, s, id, readable);
    case Read(id, readable) => ReadInv(cfg, s, id, readable);
    case Judge(id, running, wait) => JudgeInv(cfg, s, id, running, wait);
    case Break(id) => BreakInv(cfg, s, id);
    case Abort(id) => AbortInv(cfg, s, id);
    case CheckOwn(_, _, _) => CheckOwnInv(cfg, s, step);
    case Unlink(id) => UnlinkInv(cfg, s, id);
    case Replace(id, written) => ReplaceInv(cfg, s, id, written);
    case GiveBackRead(_, _) => CheckOwnInv(cfg, s, step);
    case GiveBackUnlink(id) => GiveBackInv(cfg, s, id);
    case LegacyCreate(id) => LegacyCreateInv(cfg, s, id);
    case LegacyWrite(id) => LegacyWriteInv(cfg, s, id);
    case OldBreak(_, _) => OldBreakInv(cfg, s, step);
    case Operator => OperatorInv(cfg, s);
  }

  ghost predicate BreaksFindTheirLocks(cfg: Config, s: State, steps: seq<Step>)
    decreases steps
  {
    steps != [] && Enabled(cfg, s, steps[0]) ==>
      FindsItsLock(s, steps[0]) && BreaksFindTheirLocks(cfg, Next(cfg, s, steps[0]), steps[1..])
  }

  lemma {:induction false} RunsInv(cfg: Config, s: State, steps: seq<Step>, t: State)
    requires Inv(cfg, s) && Runs(cfg, s, steps, t) && BreaksFindTheirLocks(cfg, s, steps)
    ensures Inv(cfg, t)
    decreases steps
  {
    if steps != [] {
      StepInv(cfg, s, steps[0]);
      RunsInv(cfg, Next(cfg, s, steps[0]), steps[1..], t);
    }
  }

  lemma {:induction false} ExclusiveRuns(cfg: Config, s: State, steps: seq<Step>, t: State)
    requires Exclusive(cfg) && Inv(cfg, s) && Runs(cfg, s, steps, t)
    ensures BreaksFindTheirLocks(cfg, s, steps)
    decreases steps
  {
    if steps != [] {
      ExclusiveFindsItsLock(cfg, s, steps[0]);
      StepInv(cfg, s, steps[0]);
      ExclusiveRuns(cfg, Next(cfg, s, steps[0]), steps[1..], t);
    }
  }

  lemma ReachableInv(cfg: Config, s: State)
    requires Exclusive(cfg) && Reachable(cfg, s)
    ensures Inv(cfg, s)
  {
    var init, steps :| Init(init) && Runs(cfg, init, steps, s);
    InitIsInv(cfg, init);
    ExclusiveRuns(cfg, init, steps, s);
    RunsInv(cfg, init, steps, s);
  }

  lemma InitIsInv(cfg: Config, s: State)
    requires Init(s)
    ensures Inv(cfg, s)
  {
  }

  /** At most one run with a live holder holds the machine, and the lock file is that run's own. */
  lemma AtMostOneHolder(cfg: Config, s: State, a: OwnerId, b: OwnerId)
    requires Exclusive(cfg) && Reachable(cfg, s) && Holds(s, a) && Holds(s, b)
    ensures a == b && NamedBy(s.file, a)
  {
    ReachableInv(cfg, s);
    OwnFileInPlace(cfg, s, a);
    OwnFileInPlace(cfg, s, b);
  }

  /** In any world: a run in which every break finds nothing, or the lock it condemned, has at most one holder. */
  lemma ExclusionRunByRun(cfg: Config, init: State, steps: seq<Step>, s: State, a: OwnerId, b: OwnerId)
    requires Init(init) && Runs(cfg, init, steps, s) && BreaksFindTheirLocks(cfg, init, steps)
    requires Holds(s, a) && Holds(s, b)
    ensures a == b && NamedBy(s.file, a)
  {
    InitIsInv(cfg, init);
    RunsInv(cfg, init, steps, s);
    OwnFileInPlace(cfg, s, a);
    OwnFileInPlace(cfg, s, b);
  }

  /** No step of anybody else removes or replaces the lock file of a live holder. */
  lemma OnlyTheHolderTouchesItsFile(cfg: Config, s: State, id: OwnerId, step: Step)
    requires Exclusive(cfg) && Reachable(cfg, s) && Holds(s, id) && Enabled(cfg, s, step)
    requires Next(cfg, s, step).file != s.file
    ensures step in {Unlink(id), Replace(id, true), GiveBackUnlink(id), LegacyWrite(id)}
  {
    ReachableInv(cfg, s);
    OwnFileInPlace(cfg, s, id);
    match step
    case Break(other) =>
      BreakFindsCondemned(cfg, s, other);
      BreakIsHarmless(cfg, s, other);
    case OldBreak(here, running) =>
      assert RunOk(cfg, s, id);
      assert PidRunning(s, s.runs[id].holder.host, s.runs[id].holder.pid);
    case Operator => NobodyInside(cfg, s);
    case Unlink(other) => GivesBackOwnFile(cfg, s, other);
    case Replace(other, _) => GivesBackOwnFile(cfg, s, other);
    case GiveBackUnlink(other) => GivesBackOwnFile(cfg, s, other);
    case _ =>
  }

  lemma GivesBackOwnFile(cfg: Config, s: State, id: OwnerId)
    requires Inv(cfg, s) && id in s.runs
    requires s.runs[id].returning || (s.runs[id].actor in s.alive && s.runs[id].pc in {Unlinking, Replacing})
    ensures s.runs[id].holder in s.alive && NamedBy(s.file, id)
  {
    assert RunOk(cfg, s, id);
    OwnFileInPlace(cfg, s, id);
  }

  /** A dead holder is no obstacle: a run that finds its record takes the machine in one pass under the guard. */
  lemma DeadHolderIsReplaced(cfg: Config, s: State, id: OwnerId, wait: bool) returns (t: State)
    requires Acts(s, id) && s.runs[id].kind == Own && s.runs[id].pc == Outside && s.runs[id].holder in s.alive
    requires GuardFree(s, s.runs[id].actor.host) && s.file.Full? && s.file.record.owner != Some(id)
    requires ProvablyDead(s, s.file.record, s.runs[id].actor.host)
    ensures Runs(cfg, s, Condemning(id, wait) + Replacement(id), t)
    ensures Holds(t, id) && t.file == Full(RecordOf(id, s.runs[id]))
  {
    var mid := At(s, id, Breaking(s.file.record));
    DeadHolderIsCondemned(cfg, s, id, wait);
    t := CondemnedIsReplaced(cfg, mid, id);
    RunsConcat(cfg, s, Condemning(id, wait), mid, Replacement(id), t);
  }

  ghost predicate ProvablyDead(s: State, record: Record, here: Host) {
    && StaleReason(Some(record), here, _ => false).Some?
    && (Usable(record.pid) ==> !PidRunning(s, here, record.pid.value))
  }

  function Condemning(id: OwnerId, wait: bool): seq<Step> {
    [Enter(id), Link(id), Read(id, true), Judge(id, false, wait)]
  }

  function Replacement(id: OwnerId): seq<Step> {
    [Break(id), Link(id), Confirm(id, true)]
  }

  lemma DeadHolderIsCondemned(cfg: Config, s: State, id: OwnerId, wait: bool)
    requires Acts(s, id) && s.runs[id].kind != Legacy && s.runs[id].pc == Outside
    requires GuardFree(s, s.runs[id].actor.host) && s.file.Full? && s.file.record.owner != Some(id)
    requires ProvablyDead(s, s.file.record, s.runs[id].actor.host)
    ensures Runs(cfg, s, Condemning(id, wait), At(s, id, Breaking(s.file.record)))
  {
    var steps := Condemning(id, wait);
    var s1, s2 := At(s, id, Creating), At(s, id, Reading);
    var s3, s4 := At(s, id, Judging(Some(s.file.record))), At(s, id, Breaking(s.file.record));
    assert Next(cfg, s, steps[0]) == s1 && Next(cfg, s1, steps[1]) == s2 && Next(cfg, s2, steps[2]) == s3;
    assert HonestProbe(s3, s3.runs[id].actor.host, s3.runs[id].pc.seen, false);
    assert Next(cfg, s3, steps[3]) == s4;
    assert Runs(cfg, s4, steps[1..][1..][1..][1..], s4);
    assert Runs(cfg, s3, steps[1..][1..][1..], s4);
    assert Runs(cfg, s2, steps[1..][1..], s4);
    assert Runs(cfg, s1, steps[1..], s4);
  }

  lemma CondemnedIsReplaced(cfg: Config, s: State, id: OwnerId) returns (t: State)
    requires Acts(s, id) && s.runs[id].pc.Breaking? && s.runs[id].holder in s.alive
    ensures Runs(cfg, s, Replacement(id), t)
    ensures Holds(t, id) && t.file == Full(RecordOf(id, s.runs[id]))
  {
    var steps := Replacement(id);
    var s1 := Next(cfg, s, steps[0]);
    var s2 := Next(cfg, s1, steps[1]);
    t := Next(cfg, s2, steps[2]);
    assert Runs(cfg, t, steps[1..][1..][1..], t);
    assert Runs(cfg, s2, steps[1..][1..], t);
    assert Runs(cfg, s1, steps[1..], t);
  }

  lemma RunsLast(cfg: Config, s: State, step: Step)
    requires Enabled(cfg, s, step)
    ensures Runs(cfg, s, [step], Next(cfg, s, step))
  {
    assert Runs(cfg, Next(cfg, s, step), [step][1..], Next(cfg, s, step));
  }

  lemma {:induction false} RunsConcat(cfg: Config, s: State, a: seq<Step>, t: State, b: seq<Step>, u: State)
    requires Runs(cfg, s, a, t) && Runs(cfg, t, b, u)
    ensures Runs(cfg, s, a + b, u)
    decreases a
  {
    if a == [] {
      assert a + b == b;
    } else {
      assert (a + b)[1..] == a[1..] + b;
      RunsConcat(cfg, Next(cfg, s, a[0]), a[1..], t, b, u);
    }
  }
}
