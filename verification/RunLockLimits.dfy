/** The races that remain when a holder may exit between a contender's read of its record and the probe of its pid.
    They make the run lock's two promises equivalences: kept in every run exactly in the configurations named here. */
module RunLockLimits {
  import opened Options
  import opened RunLockRecord
  import opened RunLockProtocol
  import opened RunLockSafety
  import opened RunLockTheorems
  import opened RunLockCleanup

  lemma ReachableNext(cfg: Config, s: State, step: Step)
    requires Reachable(cfg, s) && Enabled(cfg, s, step)
    ensures Reachable(cfg, Next(cfg, s, step))
  {
    var init, steps :| Init(init) && Runs(cfg, init, steps, s);
    RunsLast(cfg, s, step);
    RunsConcat(cfg, init, steps, s, [step], Next(cfg, s, step));
  }

  function P(host: Host, n: nat): Proc {
    Proc(host, n + 1, n)
  }

  function Idle(kind: Kind, p: Proc): Run {
    Run(kind, p, p, Outside, false, false)
  }

  /** A world of three runs: 1 and 2 on the home host, 3 of some kind on some host. */
  function World(file: File, r1: Run, r2: Run, r3: Run, alive: set<Proc>, born: set<Proc>): State {
    State(file, map[1 := r1, 2 := r2, 3 := r3], alive, born)
  }

  lemma Go(cfg: Config, s: State, step: Step, t: State)
    requires Reachable(cfg, s) && Enabled(cfg, s, step) && Next(cfg, s, step) == t
    ensures Reachable(cfg, t)
  {
    ReachableNext(cfg, s, step);
  }

  lemma GoStart(cfg: Config, s: State, id: OwnerId, kind: Kind, p: Proc)
    requires Reachable(cfg, s) && s.file == Absent && id !in s.runs && p in s.alive
    requires forall j :: j in s.runs ==> s.runs[j].pc == Outside
    requires kind != Job && (kind == Legacy ==> cfg.legacy) && (p.host != cfg.home ==> cfg.otherHosts)
    ensures Reachable(cfg, s.(runs := s.runs[id := Idle(kind, p)]))
  {
    Go(cfg, s, Start(id, kind, p, p), s.(runs := s.runs[id := Idle(kind, p)]));
  }

  /** From outside the guard to the holding of a free machine. */
  lemma GoTake(cfg: Config, s: State, id: OwnerId)
    requires Reachable(cfg, s) && Acts(s, id) && s.file == Absent
    requires s.runs[id].kind == Own && s.runs[id].pc == Outside && GuardFree(s, s.runs[id].actor.host)
    ensures Reachable(cfg, Took(s, id))
  {
    var s1 := At(s, id, Creating);
    Go(cfg, s, Enter(id), s1);
    GoLinked(cfg, s1, id);
    assert Took(s1, id) == Took(s, id);
  }

  function Took(s: State, id: OwnerId): State
    requires id in s.runs
  {
    s.(file := Full(RecordOf(id, s.runs[id])), runs := s.runs[id := s.runs[id].(pc := Holding, published := true)])
  }

  lemma GoLinked(cfg: Config, s: State, id: OwnerId)
    requires Reachable(cfg, s) && Acts(s, id) && s.file == Absent && s.runs[id].pc in {Creating, Recreating}
    ensures Reachable(cfg, Took(s, id))
  {
    var s1 := Next(cfg, s, Link(id));
    ReachableNext(cfg, s, Link(id));
    Go(cfg, s1, Confirm(id, true), Took(s, id));
  }

  /** From outside the guard to the judgement of a holder's record. */
  lemma GoRead(cfg: Config, s: State, id: OwnerId)
    requires Reachable(cfg, s) && Acts(s, id) && s.file.Full?
    requires s.runs[id].kind == Own && s.runs[id].pc == Outside && GuardFree(s, s.runs[id].actor.host)
    ensures Reachable(cfg, At(s, id, Judging(Some(s.file.record))))
  {
    var s1, s2 := At(s, id, Creating), At(s, id, Reading);
    Go(cfg, s, Enter(id), s1);
    Go(cfg, s1, Link(id), s2);
    Go(cfg, s2, Read(id, true), At(s, id, Judging(Some(s.file.record))));
  }

  /** From a judged record whose process is gone to the break. */
  lemma GoCondemn(cfg: Config, s: State, id: OwnerId, record: Record)
    requires Reachable(cfg, s) && Acts(s, id) && s.runs[id].pc == Judging(Some(record)) && record.owner != Some(id)
    requires ProvablyDead(s, record, s.runs[id].actor.host)
    ensures Reachable(cfg, At(s, id, Breaking(record)))
  {
    Go(cfg, s, Judge(id, false, true), At(s, id, Breaking(record)));
  }

  lemma GoGiveUp(cfg: Config, s: State, id: OwnerId, retain: bool)
    requires Reachable(cfg, s) && Acts(s, id) && s.runs[id].kind == Own && s.runs[id].pc == Holding
    requires s.file == Full(RecordOf(id, s.runs[id]))
    ensures Reachable(cfg, GaveUp(s, id, retain))
  {
    var s1 := At(s, id, if retain then Replacing else Unlinking);
    Go(cfg, s, CheckOwn(id, true, retain), s1);
    Go(cfg, s1, if retain then Replace(id, true) else Unlink(id), GaveUp(s, id, retain));
  }

  function GaveUp(s: State, id: OwnerId, retain: bool): State
    requires id in s.runs
  {
    var run := s.runs[id];
    if retain then At(s, id, Done).(file := Full(CleanupRecordOf(id, run)))
    else s.(file := Absent, runs := s.runs[id := run.(pc := Done, published := false)])
  }

  lemma GoExit(cfg: Config, s: State, p: Proc)
    requires Reachable(cfg, s) && cfg.lateExits && p in s.alive
    requires forall id :: id in s.runs ==> !s.runs[id].returning
    ensures Reachable(cfg, s.(alive := s.alive - {p}))
  {
    Go(cfg, s, Exit(p), s.(alive := s.alive - {p}));
  }

  lemma SpawnedIsReachable(cfg: Config, host: Host)
    ensures var procs := {P(cfg.home, 1), P(cfg.home, 2), P(host, 3)};
            Reachable(cfg, State(Absent, map[], procs, procs))
  {
    var p1, p2, p3 := P(cfg.home, 1), P(cfg.home, 2), P(host, 3);
    var s0, s1 := State(Absent, map[], {}, {}), State(Absent, map[], {p1}, {p1});
    var s2, s3 := State(Absent, map[], {p1, p2}, {p1, p2}), State(Absent, map[], {p1, p2, p3}, {p1, p2, p3});
    assert Init(s0) && Runs(cfg, s0, [], s0);
    Go(cfg, s0, Spawn(p1), s1);
    Go(cfg, s1, Spawn(p2), s2);
    Go(cfg, s2, Spawn(p3), s3);
  }

  lemma StartedIsReachable(cfg: Config, kind: Kind, p1: Proc, p2: Proc, p3: Proc)
    requires kind != Job && (kind == Legacy ==> cfg.legacy) && (p3.host != cfg.home ==> cfg.otherHosts)
    requires p1 == P(cfg.home, 1) && p2 == P(cfg.home, 2) && p3 == P(p3.host, 3)
    ensures Reachable(cfg, World(Absent, Idle(Own, p1), Idle(Own, p2), Idle(kind, p3), {p1, p2, p3}, {p1, p2, p3}))
  {
    SpawnedIsReachable(cfg, p3.host);
    var s0 := State(Absent, map[], {p1, p2, p3}, {p1, p2, p3});
    GoStart(cfg, s0, 1, Own, p1);
    var s1 := s0.(runs := s0.runs[1 := Idle(Own, p1)]);
    GoStart(cfg, s1, 2, Own, p2);
    var s2 := s1.(runs := s1.runs[2 := Idle(Own, p2)]);
    GoStart(cfg, s2, 3, kind, p3);
    assert s2.runs[3 := Idle(kind, p3)] == map[1 := Idle(Own, p1), 2 := Idle(Own, p2), 3 := Idle(kind, p3)];
  }

  /** Run 1 holds the machine. */
  function Held(kind: Kind, p1: Proc, p2: Proc, p3: Proc): State {
    Took(World(Absent, Idle(Own, p1), Idle(Own, p2), Idle(kind, p3), {p1, p2, p3}, {p1, p2, p3}), 1)
  }

  lemma HeldIsReachable(cfg: Config, kind: Kind, p1: Proc, p2: Proc, p3: Proc)
    requires kind != Job && (kind == Legacy ==> cfg.legacy) && (p3.host != cfg.home ==> cfg.otherHosts)
    requires p1 == P(cfg.home, 1) && p2 == P(cfg.home, 2) && p3 == P(p3.host, 3)
    ensures Reachable(cfg, Held(kind, p1, p2, p3))
  {
    StartedIsReachable(cfg, kind, p1, p2, p3);
    GoTake(cfg, World(Absent, Idle(Own, p1), Idle(Own, p2), Idle(kind, p3), {p1, p2, p3}, {p1, p2, p3}), 1);
  }

  /** Run 2 has read the record of run 1 and not yet probed its pid. */
  function Contended(home: Host, kind: Kind, host: Host): State {
    var s := Held(kind, P(home, 1), P(home, 2), P(host, 3));
    At(s, 2, Judging(Some(s.file.record)))
  }

  lemma ContendedIsReachable(cfg: Config, kind: Kind, host: Host)
    requires kind != Job && (kind == Legacy ==> cfg.legacy) && (host != cfg.home ==> cfg.otherHosts)
    ensures Reachable(cfg, Contended(cfg.home, kind, host))
  {
    var p1, p2, p3 := P(cfg.home, 1), P(cfg.home, 2), P(host, 3);
    HeldIsReachable(cfg, kind, p1, p2, p3);
    GoRead(cfg, Held(kind, p1, p2, p3), 2);
  }

  /** Run 1 gave the machine back, or marked it for cleanup, and exited, and run 2 condemned the record it had read. */
  function Condemned(home: Host, kind: Kind, host: Host, retain: bool): State {
    var s := GaveUp(Contended(home, kind, host), 1, retain);
    var p := P(home, 1);
    At(s, 2, Breaking(s.runs[2].pc.seen.value)).(alive := s.alive - {p})
  }

  lemma CondemnedIsReachable(cfg: Config, kind: Kind, host: Host, retain: bool)
    requires cfg.lateExits
    requires kind != Job && (kind == Legacy ==> cfg.legacy) && (host != cfg.home ==> cfg.otherHosts)
    ensures Reachable(cfg, Condemned(cfg.home, kind, host, retain))
  {
    var s0 := Contended(cfg.home, kind, host);
    ContendedIsReachable(cfg, kind, host);
    GoGiveUp(cfg, s0, 1, retain);
    var s1 := GaveUp(s0, 1, retain);
    GoExit(cfg, s1, P(cfg.home, 1));
    var p := P(cfg.home, 1);
    var s2 := s1.(alive := s1.alive - {p});
    assert s2.alive <= {P(cfg.home, 2), P(host, 3)};
    assert !PidRunning(s2, cfg.home, 2);
    GoCondemn(cfg, s2, 2, RecordOf(1, s0.runs[1]));
  }

  /** The third run takes the free machine while run 2 is inside the guard. */
  lemma ThirdRunTakesIt(cfg: Config, kind: Kind, host: Host) returns (s: State)
    requires cfg.lateExits
    requires (kind == Legacy && cfg.legacy && host == cfg.home) || (kind == Own && cfg.otherHosts && host != cfg.home)
    ensures Reachable(cfg, s) && Holds(s, 3)
    ensures Acts(s, 2) && s.runs[2] == Condemned(cfg.home, kind, host, false).runs[2]
  {
    CondemnedIsReachable(cfg, kind, host, false);
    var s0 := Condemned(cfg.home, kind, host, false);
    if kind == Legacy {
      s := Next(cfg, s0, LegacyCreate(3));
      Go(cfg, s0, LegacyCreate(3), s);
    } else {
      GoTake(cfg, s0, 3);
      s := Took(s0, 3);
    }
  }

  /** Run 2 then unlinks whatever is there, and holds the machine beside run 3. */
  lemma TwoHolders(cfg: Config) returns (s: State)
    requires !Exclusive(cfg)
    ensures Reachable(cfg, s) && Holds(s, 2) && Holds(s, 3)
  {
    var kind := if cfg.legacy then Legacy else Own;
    var host := if cfg.legacy then cfg.home else cfg.home + "'";
    var s0 := ThirdRunTakesIt(cfg, kind, host);
    var s1 := At(s0, 2, Recreating).(file := Absent);
    Go(cfg, s0, Break(2), s1);
    GoLinked(cfg, s1, 2);
    s := Took(s1, 2);
  }

  /** Mutual exclusion holds in every run exactly when no lock can appear outside the guard, or no holder exits
      inside the window. */
  lemma ExclusionExactly(cfg: Config)
    ensures (forall s, a, b :: Reachable(cfg, s) && Holds(s, a) && Holds(s, b) ==> a == b) <==> Exclusive(cfg)
  {
    if Exclusive(cfg) {
      forall s, a, b | Reachable(cfg, s) && Holds(s, a) && Holds(s, b) ensures a == b {
        AtMostOneHolder(cfg, s, a, b);
      }
    } else {
      var s := TwoHolders(cfg);
      assert Reachable(cfg, s) && Holds(s, 2) && Holds(s, 3);
    }
  }

  /** Run 1 marks its record for cleanup and exits inside run 2's window: run 2 breaks the marked record. */
  lemma MarkIsBroken(cfg: Config) returns (s: State)
    requires cfg.lateExits
    ensures Reachable(cfg, s) && CleanupMarked(s.file) && Enabled(cfg, s, Break(2))
              && Next(cfg, s, Break(2)).file == Absent
  {
    CondemnedIsReachable(cfg, Own, cfg.home, true);
    s := Condemned(cfg.home, Own, cfg.home, true);
  }

  /** Only an operator clears a record marked for cleanup, in every run, exactly when no holder exits inside
      the window. */
  lemma CleanupExactly(cfg: Config)
    ensures (forall s, step | Reachable(cfg, s) && CleanupMarked(s.file) && step != Operator && Enabled(cfg, s, step)
             :: Next(cfg, s, step).file == s.file) <==> !cfg.lateExits
  {
    if cfg.lateExits {
      var s := MarkIsBroken(cfg);
      assert Reachable(cfg, s) && Enabled(cfg, s, Break(2)) && Next(cfg, s, Break(2)).file != s.file;
    } else {
      forall s, step | Reachable(cfg, s) && CleanupMarked(s.file) && step != Operator && Enabled(cfg, s, step)
        ensures Next(cfg, s, step).file == s.file
      {
        ReachableInv(cfg, s);
        MarkSurvivesInTime(cfg, s, step);
      }
    }
  }
}
