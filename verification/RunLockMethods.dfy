/** acquire, release and retain_for_cleanup as they run: each is a sequence of protocol steps of one run, with any steps
    of others in between (tools/run_lock.py). */
module RunLockMethods {
  import opened Options
  import opened RunLockRecord
  import opened RunLockProtocol
  import opened RunLockSafety
  import opened RunLockTheorems

  predicate ActsFor(step: Step, id: OwnerId) {
    match step
    case Spawn(_) => false
    case Exit(_) => false
    case Start(i, _, _, _) => i == id
    case Enter(i) => i == id
    case Link(i) => i == id
    case Confirm(i, _) => i == id
    case Read(i, _) => i == id
    case Judge(i, _, _) => i == id
    case Break(i) => i == id
    case Abort(i) => i == id
    case CheckOwn(i, _, _) => i == id
    case Unlink(i) => i == id
    case Replace(i, _) => i == id
    case GiveBackRead(i, _) => i == id
    case GiveBackUnlink(i) => i == id
    case LegacyCreate(i) => i == id
    case LegacyWrite(i) => i == id
    case OldBreak(_, _) => false
    case Operator => false
  }

  /** The run executes in a live process of its own. */
  predicate Mine(s: State, id: OwnerId) {
    Acts(s, id) && s.runs[id].kind == Own && s.runs[id].holder == s.runs[id].actor
  }

  predicate SameRun(a: Run, b: Run) {
    a.pc == b.pc && a.kind == b.kind && a.actor == b.actor && a.holder == b.holder
  }

  lemma OthersLeaveTheRun(cfg: Config, s: State, step: Step, id: OwnerId)
    requires Mine(s, id) && !ActsFor(step, id) && step != Exit(s.runs[id].actor) && Enabled(cfg, s, step)
    ensures Mine(Next(cfg, s, step), id) && SameRun(Next(cfg, s, step).runs[id], s.runs[id])
  {
  }

  /** The lock file, the processes and the runs, and what has happened to them since the beginning. */
  class World {
    const cfg: Config
    var state: State
    ghost const start: State
    ghost var steps: seq<Step>

    constructor (cfg: Config, start: State)
      requires Init(start)
      ensures Valid() && this.cfg == cfg && state == start
    {
      this.cfg, this.start, state, steps := cfg, start, start, [];
    }

    ghost predicate Valid()
      reads this
    {
      Init(start) && Runs(cfg, start, steps, state)
    }

    method Take(step: Step)
      requires Valid() && Enabled(cfg, state, step)
      modifies this
      ensures Valid() && state == Next(cfg, old(state), step)
    {
      RunsLast(cfg, state, step);
      RunsConcat(cfg, start, steps, state, [step], Next(cfg, state, step));
      steps := steps + [step];
      state := Next(cfg, state, step);
    }

    /** Whatever other runs, other processes and an operator do meanwhile. */
    method Others(id: OwnerId)
      requires Valid() && Mine(state, id)
      modifies this
      ensures Valid() && Mine(state, id) && SameRun(state.runs[id], old(state).runs[id])
    {
      var schedule: seq<Step> := *;
      for i := 0 to |schedule|
        invariant Valid() && Mine(state, id) && SameRun(state.runs[id], old(state).runs[id])
      {
        if !ActsFor(schedule[i], id) && schedule[i] != Exit(state.runs[id].actor) && Enabled(cfg, state, schedule[i]) {
          OthersLeaveTheRun(cfg, state, schedule[i], id);
          Take(schedule[i]);
        }
      }
    }
  }

  predicate MarkedByAnother(record: Option<Record>, id: OwnerId) {
    record.Some? && record.value.cleanup && record.value.owner != Some(id)
  }

  /** The file is this run's record, and the read of it succeeds. */
  predicate ReadAsOwn(file: File, id: OwnerId, readable: bool) {
    readable && file.Full? && NamedBy(file, id)
  }

  datatype Outcome = Held | Busy(seen: Option<Record>) | StillWaiting

  class RunLock {
    const world: World
    const id: OwnerId
    var held: bool

    /** A run that was started and has not tried yet. */
    constructor (world: World, id: OwnerId)
      requires world.Valid() && Mine(world.state, id) && world.state.runs[id].pc == Outside
      ensures this.world == world && this.id == id && !held
    {
      this.world, this.id, held := world, id, false;
    }

    ghost predicate Valid()
      reads this, world
    {
      && world.Valid() && Mine(world.state, id)
      && (held <==> world.state.runs[id].pc == Holding)
    }

    /** Publish the record and read it back: the run holds the machine, or it goes on as the protocol says. */
    method Create() returns (created: bool)
      requires world.Valid() && Mine(world.state, id) && world.state.runs[id].pc in {Creating, Recreating}
      modifies world
      ensures world.Valid() && Mine(world.state, id)
      ensures created <==> world.state.runs[id].pc == Holding
      ensures !created ==>
                world.state.runs[id].pc == if old(world.state.runs[id].pc) == Creating then Reading else Outside
    {
      world.Take(Link(id));
      if world.state.runs[id].pc.Confirming? {
        world.Others(id);
        var readable: bool := *;
        world.Take(Confirm(id, readable));
      }
      created := world.state.runs[id].pc == Holding;
    }

    /** Try once under the guard: None when the run has to wait for the holder. `met` is the record it read there. */
    method TryOnce(wait: bool) returns (outcome: Option<Outcome>, met: Option<Record>)
      requires world.Valid() && Mine(world.state, id) && world.state.runs[id].pc == Creating
      modifies world
      ensures world.Valid() && Mine(world.state, id)
      ensures outcome == Some(Held) <==> world.state.runs[id].pc == Holding
      ensures outcome.Some? && outcome.value.Busy? ==>
                world.state.runs[id].pc == Refused
                    && (!wait || (outcome.value.seen.Some? && outcome.value.seen.value.cleanup))
      ensures outcome.None? ==> world.state.runs[id].pc == Outside
      ensures outcome != Some(StillWaiting)
      ensures MarkedByAnother(met, id) ==> outcome == Some(Busy(met))
    {
      met := None;
      var created := Create();
      if created {
        return Some(Held), met;
      }
      world.Others(id);
      var readable: bool := *;
      world.Take(Read(id, readable));
      met := world.state.runs[id].pc.seen;
      world.Others(id);
      var overcautious: bool := *;
      var here := world.state.runs[id].actor.host;
      var running := overcautious
        || (met.Some? && Usable(met.value.pid) && PidRunning(world.state, here, met.value.pid.value));
      world.Take(Judge(id, running, wait));
      if met.Some? && met.value.owner == Some(id) {
        return Some(Held), met;
      }
      if met.Some? && met.value.cleanup {
        return Some(Busy(met)), met;
      }
      var stale := StaleReason(met, here, (pid: int) => running);
      if stale.Some? {
        world.Others(id);
        world.Take(Break(id));
        world.Others(id);
        created := Create();
        return if created then Some(Held) else None, met;
      }
      return if wait then None else Some(Busy(met)), met;
    }

    /** Hold the machine, or queue for as many polls as there are, or be refused. `met` is what each pass read: the
        first mark of another run ends the queueing, told to wait or not. */
    method Acquire(wait: bool, polls: nat) returns (outcome: Outcome, ghost met: seq<Option<Record>>)
      requires Valid() && !held && world.state.runs[id].pc == Outside
      modifies this, world
      ensures Valid()
      ensures outcome == Held <==> held
      ensures outcome == Held && Exclusive(world.cfg) ==>
                NamedBy(world.state.file, id) && forall other :: Holds(world.state, other) ==> other == id
      ensures outcome.Busy? ==>
                world.state.runs[id].pc == Refused && (!wait || (outcome.seen.Some? && outcome.seen.value.cleanup))
      ensures outcome.StillWaiting? ==> world.state.runs[id].pc == Outside
      ensures forall i :: 0 <= i < |met| && MarkedByAnother(met[i], id) ==> i == |met| - 1 && outcome == Busy(met[i])
    {
      outcome, met := StillWaiting, [];
      for i := 0 to polls
        invariant world.Valid() && Mine(world.state, id) && world.state.runs[id].pc == Outside && !held
        invariant forall i :: 0 <= i < |met| ==> !MarkedByAnother(met[i], id)
      {
        world.Others(id);
        if GuardFree(world.state, world.state.runs[id].actor.host) {
          world.Take(Enter(id));
          world.Others(id);
          var tried, read := TryOnce(wait);
          met := met + [read];
          if tried.Some? {
            outcome := tried.value;
            held := outcome == Held;
            if held { HolderIsAlone(world.cfg, world.start, world.steps, world.state, id); }
            return;
          }
        }
      }
    }

    /** Give the machine back, if the record is still this run's. */
    method Release(readable: bool)
      requires Valid()
      modifies this, world
      ensures Valid() && !held
      ensures !old(held) ==> world.state == old(world.state)
      ensures old(held) ==> world.state.runs[id].pc == Done
      ensures old(held) ==>
                world.state.file ==
                  if ReadAsOwn(old(world.state.file), id, readable) then Absent else old(world.state.file)
    {
      if !held {
        return;
      }
      held := false;
      world.Take(CheckOwn(id, readable, false));
      if world.state.runs[id].pc == Unlinking {
        world.Others(id);
        world.Take(Unlink(id));
      }
    }

    /** Leave the record in place, marked so that nobody takes it over, if it is still this run's. */
    method RetainForCleanup(readable: bool, written: bool)
      requires Valid()
      modifies this, world
      ensures Valid() && !held
      ensures !old(held) ==> world.state == old(world.state)
      ensures old(held) ==> world.state.runs[id].pc == Done
      ensures old(held) && !ReadAsOwn(old(world.state.file), id, readable) ==> world.state.file == old(world.state.file)
      ensures old(held) && ReadAsOwn(old(world.state.file), id, readable) && written ==>
                world.state.file == Full(CleanupRecordOf(id, world.state.runs[id]))
      ensures old(held) && Exclusive(world.cfg) ==> NamedBy(world.state.file, id)
    {
      if !held {
        return;
      }
      HolderKeepsFile(world.cfg, world.start, world.steps, world.state, id);
      held := false;
      world.Take(CheckOwn(id, readable, true));
      if world.state.runs[id].pc == Replacing {
        world.Others(id);
        assert Holds(world.state, id);
        HolderKeepsFile(world.cfg, world.start, world.steps, world.state, id);
        world.Take(Replace(id, written));
      }
    }
  }

  lemma HolderKeepsFile(cfg: Config, start: State, steps: seq<Step>, s: State, id: OwnerId)
    requires Init(start) && Runs(cfg, start, steps, s) && Holds(s, id)
    ensures Exclusive(cfg) ==> NamedBy(s.file, id)
  {
    if Exclusive(cfg) {
      assert Reachable(cfg, s);
      AtMostOneHolder(cfg, s, id, id);
    }
  }

  lemma HolderIsAlone(cfg: Config, start: State, steps: seq<Step>, s: State, id: OwnerId)
    requires Init(start) && Runs(cfg, start, steps, s) && Mine(s, id) && s.runs[id].pc == Holding
    ensures Exclusive(cfg) ==> NamedBy(s.file, id) && forall other :: Holds(s, other) ==> other == id
  {
    assert Reachable(cfg, s);
    assert Holds(s, id);
    if Exclusive(cfg) {
      forall other | Holds(s, other) ensures other == id {
        AtMostOneHolder(cfg, s, id, other);
      }
      AtMostOneHolder(cfg, s, id, id);
    }
  }
}
