/** The machine run lock as a protocol: any number of runs on any number of hosts take steps on one lock file. */
module RunLockProtocol {
  import opened Options
  import opened RunLockRecord

  /** A process: `pid` may be reused by a later process of the same host, the `serial` never is. */
  datatype Proc = Proc(host: Host, pid: int, serial: nat)

  /** `Own` records its own process, `Job` (the `take` command) the process that started it, and `Legacy` is a
      checkout that creates the file empty, outside the guard, and writes its record later. */
  datatype Kind = Own | Job | Legacy

  datatype Pc =
    | Outside                          // not started, or between two attempts
    | Creating                         // has the guard, about to link its record into place
    | Confirming(second: bool)         // linked, about to read its own record back
    | Reading                          // the link found a file there
    | Judging(seen: Option<Record>)    // read it, about to judge and to probe the pid
    | Breaking(condemned: Record)      // judged dead, about to unlink
    | Recreating                       // unlinked, about to link again
    | Writing                          // Legacy only: created the file, record not written yet
    | Holding
    | Unlinking                        // release: read its own record, about to unlink
    | Replacing                        // retain_for_cleanup: read its own record, about to rewrite it
    | Refused                          // acquire raised RunLockBusy
    | Done

  /** `published`: this run's file was put in place and not yet taken away by the run itself.
      `returning`: a give-back step of the job has read the run's own record and is about to unlink it. */
  datatype Run = Run(kind: Kind, actor: Proc, holder: Proc, pc: Pc, published: bool, returning: bool)

  datatype File = Absent | Blank(creator: OwnerId) | Full(record: Record)

  datatype State = State(file: File, runs: map<OwnerId, Run>, alive: set<Proc>, born: set<Proc>)

  datatype Step =
    | Spawn(p: Proc)
    | Exit(p: Proc)
    | Start(id: OwnerId, kind: Kind, actor: Proc, holder: Proc)
    | Enter(id: OwnerId)
    | Link(id: OwnerId)
    | Confirm(id: OwnerId, readable: bool)
    | Read(id: OwnerId, readable: bool)
    | Judge(id: OwnerId, running: bool, wait: bool)
    | Break(id: OwnerId)
    | Abort(id: OwnerId)
    | CheckOwn(id: OwnerId, readable: bool, retain: bool)
    | Unlink(id: OwnerId)
    | Replace(id: OwnerId, written: bool)
    | GiveBackRead(id: OwnerId, readable: bool)
    | GiveBackUnlink(id: OwnerId)
    | LegacyCreate(id: OwnerId)
    | LegacyWrite(id: OwnerId)
    | OldBreak(here: Host, running: bool)
    | Operator

  /** The world a run of the protocol happens in. `legacy`: checkouts that create outside the guard take part.
      `otherHosts`: the home directory is shared with other hosts. `lateExits`: a holder may exit after a contender
      has read its record and before that contender probes its pid. */
  datatype Config = Config(home: Host, legacy: bool, otherHosts: bool, lateExits: bool)

  function RecordOf(id: OwnerId, run: Run): Record {
    Record(LOCK_RECORD_VERSION, Some(id), Some(run.holder.pid), Some(run.holder.host), false)
  }

  function CleanupRecordOf(id: OwnerId, run: Run): Record {
    RecordOf(id, run).(cleanup := true, version := LOCK_CLEANUP_RECORD_VERSION)
  }

  predicate InGuard(pc: Pc) {
    pc.Creating? || pc.Confirming? || pc.Reading? || pc.Judging? || pc.Breaking? || pc.Recreating?
  }

  predicate NamedBy(file: File, id: OwnerId) {
    file == Blank(id) || (file.Full? && file.record.owner == Some(id))
  }

  predicate PidRunning(s: State, host: Host, pid: int) {
    exists p :: p in s.alive && p.host == host && p.pid == pid
  }

  /** The run exists and the process executing it lives. */
  predicate Acts(s: State, id: OwnerId) {
    id in s.runs && s.runs[id].actor in s.alive
  }

  /** The kernel drops the guard of a process that exits, so only a live run inside holds it. */
  predicate GuardFree(s: State, host: Host) {
    forall id :: id in s.runs && InGuard(s.runs[id].pc) && s.runs[id].actor.host == host ==>
        s.runs[id].actor !in s.alive
  }

  /** Probing may err only towards "running". */
  predicate HonestProbe(s: State, host: Host, seen: Option<Record>, running: bool) {
    seen.Some? && Usable(seen.value.pid) && PidRunning(s, host, seen.value.pid.value) ==> running
  }

  /** What an operator who clears the file by hand has to be certain is not happening. */
  predicate UsesMachine(s: State, id: OwnerId)
    requires id in s.runs
  {
    var run := s.runs[id];
    || run.returning
    || (run.kind == Job && run.pc == Holding && run.holder in s.alive)
    || (run.actor in s.alive && (InGuard(run.pc) || run.pc in {Writing, Holding, Unlinking, Replacing}))
  }

  /** The record a run inside the guard goes by. */
  function Snapshot(pc: Pc): Option<Record> {
    match pc
    case Judging(seen) => seen
    case Breaking(condemned) => Some(condemned)
    case _ => None
  }

  /** Owner ids are random: a new one is the id of no run, no file and no record any run has read. */
  predicate Unseen(s: State, id: OwnerId) {
    && id !in s.runs && !NamedBy(s.file, id)
    && (forall j :: j in s.runs && Snapshot(s.runs[j].pc).Some? ==> Snapshot(s.runs[j].pc).value.owner != Some(id))
  }

  predicate Enabled(cfg: Config, s: State, step: Step) {
    match step
    case Spawn(p) =>
      p.pid > 0 && p !in s.born && !PidRunning(s, p.host, p.pid)
    case Exit(p) =>
      && p in s.alive
      && (forall id :: id in s.runs && s.runs[id].holder == p ==> !s.runs[id].returning)
      && (!cfg.lateExits ==> forall id :: id in s.runs && s.runs[id].actor in s.alive ==>
          !JudgesRecordOf(s, s.runs[id].pc, p))
    case Start(id, kind, actor, holder) =>
      && Unseen(s, id)
      && actor in s.alive && holder in s.alive && actor.host == holder.host
      && (kind != Job ==> actor == holder)
      && (kind == Legacy ==> cfg.legacy)
      && (!cfg.otherHosts ==> actor.host == cfg.home)
    case Enter(id) =>
      Acts(s, id) && s.runs[id].kind != Legacy && s.runs[id].pc == Outside && GuardFree(s, s.runs[id].actor.host)
    case Link(id) =>
      Acts(s, id) && (s.runs[id].pc == Creating || s.runs[id].pc == Recreating)
    case Confirm(id, _) =>
      Acts(s, id) && s.runs[id].pc.Confirming?
    case Read(id, _) =>
      Acts(s, id) && s.runs[id].pc == Reading
    case Judge(id, running, _) =>
      && Acts(s, id) && s.runs[id].pc.Judging?
      && HonestProbe(s, s.runs[id].actor.host, s.runs[id].pc.seen, running)
    case Break(id) =>
      Acts(s, id) && s.runs[id].pc.Breaking?
    case Abort(id) =>
      Acts(s, id) && (InGuard(s.runs[id].pc) || s.runs[id].pc == Outside)
    case CheckOwn(id, _, retain) =>
      Acts(s, id) && s.runs[id].kind != Job && s.runs[id].pc == Holding && (retain ==> s.runs[id].kind == Own)
    case Unlink(id) =>
      Acts(s, id) && s.runs[id].pc == Unlinking
    case Replace(id, _) =>
      Acts(s, id) && s.runs[id].pc == Replacing
    case GiveBackRead(id, _) =>
      && id in s.runs && s.runs[id].kind == Job && s.runs[id].holder in s.alive && !s.runs[id].returning
      && (s.runs[id].actor !in s.alive || s.runs[id].pc in {Holding, Refused, Done})
    case GiveBackUnlink(id) =>
      id in s.runs && s.runs[id].returning
    case LegacyCreate(id) =>
      Acts(s, id) && s.runs[id].kind == Legacy && s.runs[id].pc == Outside && s.file == Absent
    case LegacyWrite(id) =>
      Acts(s, id) && s.runs[id].pc == Writing
    case OldBreak(here, running) =>
      s.file.Full? && GuardFree(s, here) && HonestProbe(s, here, Some(s.file.record), running)
    case Operator =>
      forall id :: id in s.runs ==> !UsesMachine(s, id)
  }

  /** Whether a run at `pc` is judging a record that names the run held by process `p`. */
  predicate JudgesRecordOf(s: State, pc: Pc, p: Proc) {
    && pc.Judging? && pc.seen.Some? && pc.seen.value.owner.Some?
    && pc.seen.value.owner.value in s.runs && s.runs[pc.seen.value.owner.value].holder == p
  }

  function At(s: State, id: OwnerId, pc: Pc): State
    requires id in s.runs
  {
    s.(runs := s.runs[id := s.runs[id].(pc := pc)])
  }

  /** What `acquire` does with the record it read, under the guard. */
  function Judgement(id: OwnerId, here: Host, seen: Option<Record>, running: bool, wait: bool): Pc {
    if seen.Some? && seen.value.owner == Some(id) then Holding
    else if seen.Some? && seen.value.cleanup then Refused
    else if StaleReason(seen, here, _ => running).Some? then Breaking(seen.value)
    else if wait then Outside
    else Refused
  }

  function Next(cfg: Config, s: State, step: Step): State
    requires Enabled(cfg, s, step)
  {
    match step
    case Spawn(p) => s.(alive := s.alive + {p}, born := s.born + {p})
    case Exit(p) => s.(alive := s.alive - {p})
    case Start(id, kind, actor, holder) =>
      s.(runs := s.runs[id := Run(kind, actor, holder, Outside, false, false)])
    case Enter(id) => At(s, id, Creating)
    case Link(id) =>
      var run := s.runs[id];
      if s.file == Absent then
        s.(file := Full(RecordOf(id, run)),
           runs := s.runs[id := run.(pc := Confirming(run.pc == Recreating), published := true)])
      else
        At(s, id, if run.pc == Creating then Reading else Outside)
    case Confirm(id, readable) =>
      At(s, id, if readable && s.file.Full? && NamedBy(s.file, id) then Holding
                else if s.runs[id].pc.second then Outside else Reading)
    case Read(id, readable) =>
      At(s, id, Judging(if readable && s.file.Full? then Some(s.file.record) else None))
    case Judge(id, running, wait) =>
      At(s, id, Judgement(id, s.runs[id].actor.host, s.runs[id].pc.seen, running, wait))
    case Break(id) => At(s, id, Recreating).(file := Absent)
    case Abort(id) => At(s, id, Done)
    case CheckOwn(id, readable, retain) =>
      At(s, id, if readable && s.file.Full? && NamedBy(s.file, id) then (if retain then Replacing else Unlinking)
          else Done)
    case Unlink(id) =>
      s.(file := Absent, runs := s.runs[id := s.runs[id].(pc := Done, published := false)])
    case Replace(id, written) =>
      At(s, id, Done).(file := if written then Full(CleanupRecordOf(id, s.runs[id])) else s.file)
    case GiveBackRead(id, readable) =>
      var returning := readable && s.file.Full? && NamedBy(s.file, id);
      s.(runs := s.runs[id := s.runs[id].(returning := returning, pc := if returning then s.runs[id].pc else Done)])
    case GiveBackUnlink(id) =>
      s.(file := Absent, runs := s.runs[id := s.runs[id].(pc := Done, published := false, returning := false)])
    case LegacyCreate(id) =>
      s.(file := Blank(id), runs := s.runs[id := s.runs[id].(pc := Writing, published := true)])
    case LegacyWrite(id) =>
      At(s, id, Holding).(file := if s.file == Blank(id) then Full(RecordOf(id, s.runs[id])) else s.file)
    case OldBreak(here, running) =>
      if OldStaleReason(Some(s.file.record), here, _ => running).Some? then s.(file := Absent) else s
    case Operator =>
      s.(file := Absent, runs := map id | id in s.runs :: s.runs[id].(published := false))
  }

  /** Before any run: whatever file an earlier day left, and no process of ours. */
  predicate Init(s: State) {
    s.runs == map[] && s.alive == {} && s.born == {}
  }

  /** The states `steps` lead to from `s`, when each step is enabled in its turn. */
  predicate Runs(cfg: Config, s: State, steps: seq<Step>, t: State)
    decreases steps
  {
    if steps == [] then s == t
    else Enabled(cfg, s, steps[0]) && Runs(cfg, Next(cfg, s, steps[0]), steps[1..], t)
  }

  ghost predicate Reachable(cfg: Config, s: State) {
    exists init, steps :: Init(init) && Runs(cfg, init, steps, s)
  }

  /** The run holds the machine and the process its record names is alive. */
  predicate Holds(s: State, id: OwnerId) {
    && id in s.runs && s.runs[id].holder in s.alive
    && (s.runs[id].returning || s.runs[id].pc in {Writing, Holding, Unlinking, Replacing})
  }
}
