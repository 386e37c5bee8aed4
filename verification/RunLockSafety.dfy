/** Safety of the run-lock protocol over every run of every configuration. */
module RunLockSafety {
  import opened Options
  import opened RunLockRecord
  import opened RunLockProtocol

  ghost predicate Processes(s: State) {
    && s.alive <= s.born
    && (forall p, q :: p in s.alive && q in s.alive && p.host == q.host && p.pid == q.pid ==> p == q)
    && (forall p :: p in s.born ==> p.pid > 0)
  }

  ghost predicate OneInGuard(s: State) {
    forall i, j :: InsideAlive(s, i) && InsideAlive(s, j) && s.runs[i].actor.host == s.runs[j].actor.host ==> i == j
  }

  ghost predicate InsideAlive(s: State, id: OwnerId) {
    Acts(s, id) && InGuard(s.runs[id].pc)
  }

  /** Configurations in which no lock is ever taken from a live holder. */
  predicate Exclusive(cfg: Config) {
    !(cfg.lateExits && (cfg.legacy || cfg.otherHosts))
  }

  ghost predicate Placed(cfg: Config, s: State, run: Run) {
    && run.actor in s.born && run.holder in s.born && run.actor.host == run.holder.host
    && (run.kind != Job ==> run.actor == run.holder)
    && (Exclusive(cfg) && cfg.lateExits ==> run.actor.host == cfg.home && run.kind != Legacy)
  }

  predicate AtRest(pc: Pc) {
    pc == Holding || pc == Refused || pc == Done
  }

  /** What a run's program counter says about its own file. */
  ghost predicate Consistent(s: State, id: OwnerId, run: Run) {
    && (run.returning ==> run.holder in s.alive && run.kind == Job && (run.actor in s.alive ==> AtRest(run.pc)))
    && (run.holder in s.alive && (run.returning || run.pc in {Holding, Writing, Unlinking, Replacing}) ==>
        run.published)
    && (run.holder in s.alive && run.actor in s.alive
        && (run.pc.Confirming? || (run.pc.Judging? && run.pc.seen.Some? && run.pc.seen.value.owner == Some(id)))
        ==> run.published)
    && (run.pc == Replacing || run.pc == Unlinking ==> run.kind != Job)
    && (run.pc == Replacing ==> run.kind == Own)
    && (run.pc == Writing ==> run.kind == Legacy)
  }

  /** A run that published its file keeps it for as long as the process named in it lives. */
  ghost predicate KeepsFile(s: State, id: OwnerId, run: Run) {
    run.published && run.holder in s.alive ==> NamedBy(s.file, id)
  }

  /** A file that names a run is as that run wrote it. */
  ghost predicate FileAsWritten(file: File, id: OwnerId, run: Run) {
    && (NamedBy(file, id) ==> run.published)
    && (file == Blank(id) ==> run.pc == Writing)
    && (file.Full? && file.record.owner == Some(id) ==>
          || file.record == RecordOf(id, run)
          || (file.record == CleanupRecordOf(id, run) && run.pc == Done && run.kind == Own))
  }

  ghost predicate AsWritten(s: State, record: Record) {
    record.owner.Some? && record.owner.value in s.runs ==>
      var holder := s.runs[record.owner.value].holder;
      record.pid == Some(holder.pid) && record.host == Some(holder.host)
  }

  ghost predicate OwnerAlive(s: State, record: Record) {
    record.owner.Some? && record.owner.value in s.runs && s.runs[record.owner.value].holder in s.alive
  }

  /** The file is the lock `record` describes, as first written or as rewritten for cleanup. */
  ghost predicate SameLock(file: File, record: Record) {
    file.Full? && (file.record == record
                   || (file.record.cleanup && file.record.owner == record.owner && file.record.host == record.host))
  }

  /** What is still known about the file between a read of `record` and its break. */
  ghost predicate Tracked(cfg: Config, s: State, record: Record) {
    if cfg.lateExits then s.file == Absent || SameLock(s.file, record)
    else OwnerAlive(s, record) || s.file == Full(record)
  }

  ghost predicate ReadsCorrectly(cfg: Config, s: State, run: Run) {
    run.actor in s.alive && Snapshot(run.pc).Some? ==>
      var record := Snapshot(run.pc).value;
      && AsWritten(s, record)
      && (Exclusive(cfg) && record.host == Some(run.actor.host) ==> Tracked(cfg, s, record))
      && (run.pc.Breaking? ==>
            && record.host == Some(run.actor.host) && !record.cleanup && record.version == LOCK_RECORD_VERSION
            && !OwnerAlive(s, record))
  }

  ghost predicate RunOk(cfg: Config, s: State, id: OwnerId)
    requires id in s.runs
  {
    var run := s.runs[id];
    && Placed(cfg, s, run) && Consistent(s, id, run) && KeepsFile(s, id, run)
    && FileAsWritten(s.file, id, run) && ReadsCorrectly(cfg, s, run)
  }

  ghost predicate Inv(cfg: Config, s: State) {
    && Processes(s)
    && OneInGuard(s)
    && forall id :: id in s.runs ==> RunOk(cfg, s, id)
  }

  lemma SpawnInv(cfg: Config, s: State, p: Proc)
    requires Inv(cfg, s) && Enabled(cfg, s, Spawn(p))
    ensures Inv(cfg, Next(cfg, s, Spawn(p)))
  {
    var t := Next(cfg, s, Spawn(p));
    forall id | id in t.runs ensures RunOk(cfg, t, id) {
      assert RunOk(cfg, s, id);
    }
  }

  lemma ExitInv(cfg: Config, s: State, p: Proc)
    requires Inv(cfg, s) && Enabled(cfg, s, Exit(p))
    ensures Inv(cfg, Next(cfg, s, Exit(p)))
  {
    var t := Next(cfg, s, Exit(p));
    forall id | id in t.runs ensures RunOk(cfg, t, id) {
      assert RunOk(cfg, s, id);
    }
  }

  lemma StartIsQuiet(cfg: Config, s: State, step: Step, id: OwnerId)
    requires Inv(cfg, s) && step.Start? && Enabled(cfg, s, step) && id in s.runs
    ensures id != step.id && RunOk(cfg, Next(cfg, s, step), id)
  {
    assert RunOk(cfg, s, id);
  }

  lemma StartInv(cfg: Config, s: State, step: Step)
    requires Inv(cfg, s) && step.Start? && Enabled(cfg, s, step)
    ensures Inv(cfg, Next(cfg, s, step))
  {
    var t := Next(cfg, s, step);
    forall id | id in t.runs ensures RunOk(cfg, t, id) {
      if id != step.id { StartIsQuiet(cfg, s, step, id); }
    }
    forall i, j | InsideAlive(t, i) && InsideAlive(t, j) && t.runs[i].actor.host == t.runs[j].actor.host
        ensures i == j {
      assert InsideAlive(s, i) && InsideAlive(s, j);
    }
  }

  /** One run moves on and the file changes only in ways the other runs can stand. */
  ghost predicate OneMoves(s: State, t: State, id: OwnerId) {
    && id in s.runs && id in t.runs && t.alive == s.alive && t.born == s.born
    && t.runs == s.runs[id := t.runs[id]]
    && t.runs[id].kind == s.runs[id].kind
    && t.runs[id].actor == s.runs[id].actor && t.runs[id].holder == s.runs[id].holder
  }

  lemma OthersStay(cfg: Config, s: State, t: State, id: OwnerId)
    requires Inv(cfg, s) && OneMoves(s, t, id) && t.file == s.file
    ensures forall j :: j in t.runs && j != id ==> RunOk(cfg, t, j)
  {
    forall j | j in t.runs && j != id ensures RunOk(cfg, t, j) {
      assert RunOk(cfg, s, j);
    }
  }

  /** The guard stays with one run as long as nobody enters it. */
  lemma GuardStays(cfg: Config, s: State, t: State, id: OwnerId)
    requires Inv(cfg, s) && OneMoves(s, t, id)
    requires InGuard(t.runs[id].pc) ==> InGuard(s.runs[id].pc)
    ensures OneInGuard(t) && Processes(t)
  {
    forall i, j | InsideAlive(t, i) && InsideAlive(t, j) && t.runs[i].actor.host == t.runs[j].actor.host
      ensures i == j
    {
      assert InsideAlive(s, i) && InsideAlive(s, j);
    }
  }

  lemma GuardIsEntered(cfg: Config, s: State, id: OwnerId)
    requires Inv(cfg, s) && Enabled(cfg, s, Enter(id))
    ensures OneInGuard(Next(cfg, s, Enter(id)))
  {
    var t := Next(cfg, s, Enter(id));
    forall i, j | InsideAlive(t, i) && InsideAlive(t, j) && t.runs[i].actor.host == t.runs[j].actor.host
      ensures i == j
    {
      if i != id && j != id {
        assert InsideAlive(s, i) && InsideAlive(s, j);
      }
    }
  }

  lemma EntryIsQuiet(cfg: Config, s: State, id: OwnerId, j: OwnerId)
    requires Inv(cfg, s) && Acts(s, id) && s.runs[id].kind != Legacy && s.runs[id].pc == Outside && j in s.runs
    ensures RunOk(cfg, At(s, id, Creating), j)
  {
    assert RunOk(cfg, s, j);
  }

  lemma EnterInv(cfg: Config, s: State, id: OwnerId)
    requires Inv(cfg, s) && Enabled(cfg, s, Enter(id))
    ensures Inv(cfg, Next(cfg, s, Enter(id)))
  {
    var t := Next(cfg, s, Enter(id));
    GuardIsEntered(cfg, s, id);
    forall j | j in t.runs ensures RunOk(cfg, t, j) {
      EntryIsQuiet(cfg, s, id, j);
    }
  }

  lemma AbortInv(cfg: Config, s: State, id: OwnerId)
    requires Inv(cfg, s) && Enabled(cfg, s, Abort(id))
    ensures Inv(cfg, Next(cfg, s, Abort(id)))
  {
    var t := Next(cfg, s, Abort(id));
    assert RunOk(cfg, t, id) by {
      assert RunOk(cfg, s, id);
    }
    OthersStay(cfg, s, t, id);
    GuardStays(cfg, s, t, id);
  }

  /** A new file appears where there was none: no other live run of this host is inside the guard then. */
  lemma OthersSeeCreation(cfg: Config, s: State, t: State, id: OwnerId)
    requires Inv(cfg, s) && OneMoves(s, t, id) && s.file == Absent
    requires t.file == Blank(id) || t.file == Full(RecordOf(id, t.runs[id]))
    requires Exclusive(cfg) && cfg.lateExits ==> InsideAlive(s, id)
    ensures forall j :: j in t.runs && j != id ==> RunOk(cfg, t, j)
  {
    forall j | j in t.runs && j != id ensures RunOk(cfg, t, j) {
      assert RunOk(cfg, s, j) && RunOk(cfg, s, id);
      if s.runs[j].actor in s.alive && Snapshot(s.runs[j].pc).Some? {
        assert InsideAlive(s, j);
      }
    }
  }

  lemma LinkInv(cfg: Config, s: State, id: OwnerId)
    requires Inv(cfg, s) && Enabled(cfg, s, Link(id))
    ensures Inv(cfg, Next(cfg, s, Link(id)))
  {
    var t := Next(cfg, s, Link(id));
    assert InsideAlive(s, id) && RunOk(cfg, t, id) by {
      assert RunOk(cfg, s, id);
    }
    GuardStays(cfg, s, t, id);
    if s.file == Absent {
      OthersSeeCreation(cfg, s, t, id);
    } else {
      OthersStay(cfg, s, t, id);
    }
  }

  lemma ConfirmInv(cfg: Config, s: State, id: OwnerId, readable: bool)
    requires Inv(cfg, s) && Enabled(cfg, s, Confirm(id, readable))
    ensures Inv(cfg, Next(cfg, s, Confirm(id, readable)))
  {
    var t := Next(cfg, s, Confirm(id, readable));
    assert RunOk(cfg, s, id);
    OthersStay(cfg, s, t, id);
    GuardStays(cfg, s, t, id);
  }

  lemma ReadInv(cfg: Config, s: State, id: OwnerId, readable: bool)
    requires Inv(cfg, s) && Enabled(cfg, s, Read(id, readable))
    ensures Inv(cfg, Next(cfg, s, Read(id, readable)))
  {
    var t := Next(cfg, s, Read(id, readable));
    assert RunOk(cfg, t, id) by {
      assert RunOk(cfg, s, id);
      if s.file.Full? && s.file.record.owner.Some? && s.file.record.owner.value in s.runs {
        assert RunOk(cfg, s, s.file.record.owner.value);
      }
    }
    OthersStay(cfg, s, t, id);
    GuardStays(cfg, s, t, id);
  }

  /** A record that is judged stale names no process that lives. */
  lemma CondemnedIsDead(cfg: Config, s: State, id: OwnerId, running: bool)
    requires Inv(cfg, s) && Acts(s, id) && s.runs[id].pc.Judging?
    requires HonestProbe(s, s.runs[id].actor.host, s.runs[id].pc.seen, running)
    requires StaleReason(s.runs[id].pc.seen, s.runs[id].actor.host, _ => running).Some?
    ensures !OwnerAlive(s, s.runs[id].pc.seen.value)
  {
    var record := s.runs[id].pc.seen.value;
    assert RunOk(cfg, s, id);
    if OwnerAlive(s, record) {
      var holder := s.runs[record.owner.value].holder;
      assert RunOk(cfg, s, record.owner.value);
      assert PidRunning(s, holder.host, holder.pid);
    }
  }

  lemma JudgeInv(cfg: Config, s: State, id: OwnerId, running: bool, wait: bool)
    requires Inv(cfg, s) && Enabled(cfg, s, Judge(id, running, wait))
    ensures Inv(cfg, Next(cfg, s, Judge(id, running, wait)))
  {
    var t := Next(cfg, s, Judge(id, running, wait));
    assert RunOk(cfg, t, id) by {
      assert RunOk(cfg, s, id);
      if t.runs[id].pc.Breaking? {
        CondemnedIsDead(cfg, s, id, running);
      }
    }
    OthersStay(cfg, s, t, id);
    GuardStays(cfg, s, t, id);
  }

  /** The file goes away, and it named no live run but `id`. */
  lemma OthersSeeRemoval(cfg: Config, s: State, t: State, id: OwnerId)
    requires Inv(cfg, s) && OneMoves(s, t, id) && t.file == Absent
    requires forall j :: j in s.runs && j != id && s.runs[j].holder in s.alive ==> !NamedBy(s.file, j)
    requires s.file.Full? && !OwnerAlive(s, s.file.record) ==>
               InsideAlive(s, id) && s.file.record.host == Some(s.runs[id].actor.host)
    ensures forall j :: j in t.runs && j != id ==> RunOk(cfg, t, j)
  {
    forall j | j in t.runs && j != id ensures RunOk(cfg, t, j) {
      assert RunOk(cfg, s, j) && RunOk(cfg, s, id);
      if s.runs[j].actor in s.alive && Snapshot(s.runs[j].pc).Some? {
        assert InsideAlive(s, j);
      }
    }
  }

  /** The break is about to remove the condemned lock, or nothing. */
  ghost predicate FindsCondemned(s: State, id: OwnerId) {
    id in s.runs && s.runs[id].pc.Breaking? && (s.file == Absent || SameLock(s.file, s.runs[id].pc.condemned))
  }

  lemma BreakFindsCondemned(cfg: Config, s: State, id: OwnerId)
    requires Exclusive(cfg) && Inv(cfg, s) && Enabled(cfg, s, Break(id))
    ensures FindsCondemned(s, id)
  {
    assert RunOk(cfg, s, id);
  }

  /** A condemned lock names no live process. */
  lemma BreakIsHarmless(cfg: Config, s: State, id: OwnerId)
    requires Inv(cfg, s) && Enabled(cfg, s, Break(id)) && FindsCondemned(s, id)
    ensures s.file.Full? ==> !OwnerAlive(s, s.file.record)
    ensures s.file.Full? ==> s.file.record.host == Some(s.runs[id].actor.host)
    ensures forall j :: j in s.runs && s.runs[j].holder in s.alive ==> !NamedBy(s.file, j) && !s.runs[j].published
  {
    assert RunOk(cfg, s, id);
    forall j | j in s.runs && s.runs[j].holder in s.alive ensures !NamedBy(s.file, j) && !s.runs[j].published {
      assert RunOk(cfg, s, j);
    }
  }

  lemma BreakInv(cfg: Config, s: State, id: OwnerId)
    requires Inv(cfg, s) && Enabled(cfg, s, Break(id)) && FindsCondemned(s, id)
    ensures Inv(cfg, Next(cfg, s, Break(id)))
  {
    var t := Next(cfg, s, Break(id));
    BreakIsHarmless(cfg, s, id);
    assert RunOk(cfg, t, id) by {
      assert RunOk(cfg, s, id);
    }
    assert InsideAlive(s, id);
    GuardStays(cfg, s, t, id);
    OthersSeeRemoval(cfg, s, t, id);
  }

  lemma CheckOwnInv(cfg: Config, s: State, step: Step)
    requires Inv(cfg, s) && (step.CheckOwn? || step.GiveBackRead?) && Enabled(cfg, s, step)
    ensures Inv(cfg, Next(cfg, s, step))
  {
    var t := Next(cfg, s, step);
    assert RunOk(cfg, t, step.id) by {
      assert RunOk(cfg, s, step.id);
    }
    OthersStay(cfg, s, t, step.id);
    GuardStays(cfg, s, t, step.id);
  }

  /** A live run that is about to give the lock back finds its own file in place. */
  lemma OwnFileInPlace(cfg: Config, s: State, id: OwnerId)
    requires Inv(cfg, s) && id in s.runs && s.runs[id].holder in s.alive
    requires s.runs[id].returning || s.runs[id].pc in {Holding, Writing, Unlinking, Replacing}
    ensures s.runs[id].published && NamedBy(s.file, id)
    ensures forall j :: j in s.runs && j != id && s.runs[j].holder in s.alive ==> !NamedBy(s.file, j)
    ensures s.file.Full? ==> OwnerAlive(s, s.file.record)
  {
    assert RunOk(cfg, s, id);
  }

  lemma UnlinkInv(cfg: Config, s: State, id: OwnerId)
    requires Inv(cfg, s) && Enabled(cfg, s, Unlink(id))
    ensures Inv(cfg, Next(cfg, s, Unlink(id)))
  {
    var t := Next(cfg, s, Unlink(id));
    assert s.runs[id].holder in s.alive && RunOk(cfg, t, id) by {
      assert RunOk(cfg, s, id);
    }
    OwnFileInPlace(cfg, s, id);
    GuardStays(cfg, s, t, id);
    OthersSeeRemoval(cfg, s, t, id);
  }

  lemma GiveBackInv(cfg: Config, s: State, id: OwnerId)
    requires Inv(cfg, s) && Enabled(cfg, s, GiveBackUnlink(id))
    ensures Inv(cfg, Next(cfg, s, GiveBackUnlink(id)))
  {
    var t := Next(cfg, s, GiveBackUnlink(id));
    assert s.runs[id].holder in s.alive && RunOk(cfg, t, id) by {
      assert RunOk(cfg, s, id);
    }
    OwnFileInPlace(cfg, s, id);
    GuardStays(cfg, s, t, id);
    OthersSeeRemoval(cfg, s, t, id);
  }

  /** The owner rewrites its own file. */
  lemma OthersSeeRewrite(cfg: Config, s: State, t: State, id: OwnerId)
    requires Inv(cfg, s) && OneMoves(s, t, id) && NamedBy(s.file, id)
    requires s.runs[id].holder in s.alive && s.runs[id].kind != Job && s.runs[id].pc != Done
    requires || (s.file.Full? && t.file == Full(CleanupRecordOf(id, s.runs[id])))
             || (s.file == Blank(id) && t.file == Full(RecordOf(id, s.runs[id])))
    ensures forall j :: j in t.runs && j != id ==> RunOk(cfg, t, j)
  {
    forall j | j in t.runs && j != id ensures RunOk(cfg, t, j) {
      assert RunOk(cfg, s, j) && RunOk(cfg, s, id);
    }
  }

  lemma ReplaceInv(cfg: Config, s: State, id: OwnerId, written: bool)
    requires Inv(cfg, s) && Enabled(cfg, s, Replace(id, written))
    ensures Inv(cfg, Next(cfg, s, Replace(id, written)))
  {
    var t := Next(cfg, s, Replace(id, written));
    assert RunOk(cfg, s, id);
    GuardStays(cfg, s, t, id);
    if written {
      OthersSeeRewrite(cfg, s, t, id);
    } else {
      OthersStay(cfg, s, t, id);
    }
  }

  lemma LegacyCreateInv(cfg: Config, s: State, id: OwnerId)
    requires Inv(cfg, s) && Enabled(cfg, s, LegacyCreate(id))
    ensures Inv(cfg, Next(cfg, s, LegacyCreate(id)))
  {
    var t := Next(cfg, s, LegacyCreate(id));
    assert RunOk(cfg, t, id) by {
      assert RunOk(cfg, s, id);
    }
    GuardStays(cfg, s, t, id);
    OthersSeeCreation(cfg, s, t, id);
  }

  lemma LegacyWriteInv(cfg: Config, s: State, id: OwnerId)
    requires Inv(cfg, s) && Enabled(cfg, s, LegacyWrite(id))
    ensures Inv(cfg, Next(cfg, s, LegacyWrite(id)))
  {
    var t := Next(cfg, s, LegacyWrite(id));
    assert s.runs[id].holder in s.alive && s.runs[id].kind != Job && RunOk(cfg, t, id) by {
      assert RunOk(cfg, s, id);
    }
    OwnFileInPlace(cfg, s, id);
    GuardStays(cfg, s, t, id);
    if s.file == Blank(id) {
      OthersSeeRewrite(cfg, s, t, id);
    } else {
      OthersStay(cfg, s, t, id);
    }
  }

  lemma OldBreakInv(cfg: Config, s: State, step: Step)
    requires Inv(cfg, s) && step.OldBreak? && Enabled(cfg, s, step)
    ensures Inv(cfg, Next(cfg, s, step))
  {
    var t := Next(cfg, s, step);
    forall j | j in t.runs ensures RunOk(cfg, t, j) {
      assert RunOk(cfg, s, j);
      if t != s {
        var record := s.file.record;
        if record.owner == Some(j) && s.runs[j].holder in s.alive {
          assert PidRunning(s, s.runs[j].holder.host, s.runs[j].holder.pid);
        }
      }
    }
  }

  lemma NobodyInside(cfg: Config, s: State)
    requires Inv(cfg, s) && Enabled(cfg, s, Operator)
    ensures forall i :: !InsideAlive(s, i)
    ensures forall i :: i in s.runs && s.runs[i].holder in s.alive ==>
                          !s.runs[i].returning && s.runs[i].pc !in {Writing, Holding, Unlinking, Replacing}
  {
    forall i | i in s.runs ensures !InsideAlive(s, i) {
      assert !UsesMachine(s, i);
    }
    forall i | i in s.runs && s.runs[i].holder in s.alive
      ensures !s.runs[i].returning && s.runs[i].pc !in {Writing, Holding, Unlinking, Replacing}
    {
      assert !UsesMachine(s, i) && RunOk(cfg, s, i);
    }
  }

  lemma ClearedIsOk(cfg: Config, s: State, t: State, id: OwnerId)
    requires id in s.runs && RunOk(cfg, s, id) && !InsideAlive(s, id)
    requires s.runs[id].holder in s.alive ==>
               !s.runs[id].returning && s.runs[id].pc !in {Writing, Holding, Unlinking, Replacing}
    requires t.file == Absent && t.alive == s.alive && t.born == s.born
    requires id in t.runs && t.runs[id] == s.runs[id].(published := false)
    ensures RunOk(cfg, t, id)
  {
  }

  lemma OperatorInv(cfg: Config, s: State)
    requires Inv(cfg, s) && Enabled(cfg, s, Operator)
    ensures Inv(cfg, Next(cfg, s, Operator))
  {
    var t := Next(cfg, s, Operator);
    NobodyInside(cfg, s);
    assert forall i :: InsideAlive(t, i) ==> InsideAlive(s, i);
    forall j | j in t.runs ensures RunOk(cfg, t, j) {
      assert RunOk(cfg, s, j) && !InsideAlive(s, j);
      ClearedIsOk(cfg, s, t, j);
    }
  }
}
