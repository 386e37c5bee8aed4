/** One Windows launch of an agent: who answers for its processes when an exception strikes
    (tools/agent_review_loop.py). The kernel answers as it likes within what it guarantees, and exceptions strike
    where they like. */
module AgentJob {
  import opened Options

  type Pid = nat
  type Handle = nat

  /** What was asked of the kernel, and the answers a decision rests on. */
  datatype Call =
    | Terminate(job: Handle)
    | Counted(active: Option<nat>)
    | Close(handle: Handle)
    | Kill(pid: Pid)
    | Polled(running: bool)

  /** What other processes do meanwhile. */
  datatype Event = Spawn(parent: Pid, child: Pid) | Exit(pid: Pid)

  /** The kernel, as far as this one launch is concerned. */
  class Kernel {
    var root: Option<Pid>
    var alive: set<Pid>
    var used: set<Pid>
    /** The root has been resumed. */
    var ran: bool
    /** The processes of the job object. */
    var members: set<Pid>
    var open: set<Handle>
    var calls: seq<Call>

    constructor ()
      ensures Valid() && root.None? && alive == {} && calls == [] && open == {}
    {
      root, alive, used, ran, members, open, calls := None, {}, {}, false, {}, {}, [];
    }

    /** A process that was never resumed has no descendants. */
    ghost predicate Valid()
      reads this
    {
      && alive <= used && (root.Some? ==> root.value in used)
      && (root.None? ==> alive == {} && !ran)
      && (root.Some? && !ran ==> alive <= {root.value})
    }

    /** Every live process of the launch is answered for by the job. */
    ghost predicate Tracked()
      reads this
    {
      alive <= members
    }

    /** Processes exit, and those that run start others, which join the job of the process that starts them. */
    method Evolve()
      requires Valid()
      modifies `alive, `used, `members
      ensures Valid() && old(used) <= used
      ensures old(Tracked()) ==> Tracked()
      ensures !ran || old(alive) == {} ==> alive <= old(alive) && members == old(members)
      ensures root.Some? && root.value !in old(alive) ==> root.value !in alive
    {
      var events: seq<Event> := *;
      for i := 0 to |events|
        invariant Valid() && old(used) <= used
        invariant old(Tracked()) ==> Tracked()
        invariant !ran || old(alive) == {} ==> alive <= old(alive) && members == old(members)
        invariant root.Some? && root.value !in old(alive) ==> root.value !in alive
      {
        match events[i]
        case Exit(pid) =>
          alive := alive - {pid};
        case Spawn(parent, child) =>
          if ran && parent in alive && child !in used {
            alive, used := alive + {child}, used + {child};
            members := if parent in members then members + {child} else members;
          }
      }
    }

    /** Popen with CREATE_SUSPENDED; None when it raises. */
    method Launch() returns (pid: Option<Pid>)
      requires Valid() && root.None?
      modifies this
      ensures Valid() && !ran && calls == old(calls) && open == old(open)
      ensures pid == root && (pid.Some? ==> alive == {pid.value})
    {
      pid := None;
      var fails: bool := *;
      if !fails {
        var chosen: Pid := *;
        root, alive, used := Some(chosen), {chosen}, used + {chosen};
        pid := root;
      }
    }

    method CreateJobObject() returns (handle: Option<Handle>)
      requires Valid()
      modifies `open
      ensures Valid()
      ensures if handle.None? then open == old(open)
                else handle.value !in old(open) && open == old(open) + {handle.value}
    {
      handle := None;
      var choice: Handle := *;
      if choice !in open {
        open := open + {choice};
        handle := Some(choice);
      }
    }

    /** AssignProcessToJobObject. A call that raises may have assigned the process all the same. */
    method Assign(pid: Pid) returns (ok: bool)
      requires Valid()
      modifies `members
      ensures Valid() && members <= old(members) + {pid} && old(members) <= members
      ensures ok ==> pid in members
    {
      var joined: bool := *;
      var reported: bool := *;
      if joined { members := members + {pid}; }
      ok := joined && reported;
    }

    /** ResumeThread on the threads of the root. A call that raises may have resumed it all the same. */
    method Resume() returns (ok: bool)
      requires Valid() && root.Some?
      modifies `ran
      ensures Valid() && (ok ==> ran) && (old(ran) ==> ran)
    {
      var resumed: bool := *;
      var reported: bool := *;
      if resumed { ran := true; }
      ok := resumed && reported;
    }

    method TerminateJob(job: Handle)
      requires Valid()
      modifies `alive, `used, `members, `calls
      ensures Valid() && old(used) <= used && (old(Tracked()) ==> Tracked()) && calls == old(calls) + [Terminate(job)]
    {
      calls := calls + [Terminate(job)];
      Evolve();
    }

    /** The number of live processes in the job, or None when the query fails. */
    method ActiveCount() returns (count: Option<nat>)
      requires Valid()
      modifies `alive, `used, `members, `calls
      ensures Valid() && old(used) <= used && (old(Tracked()) ==> Tracked()) && calls == old(calls) + [Counted(count)]
      ensures count == Some(0) ==> alive * members == {}
    {
      Evolve();
      var fails: bool := *;
      count := if fails then None else Some(|alive * members|);
      calls := calls + [Counted(count)];
    }

    method CloseHandle(handle: Handle)
      requires Valid() && handle in open
      modifies `open, `calls
      ensures Valid() && open == old(open) - {handle} && calls == old(calls) + [Close(handle)]
    {
      open := open - {handle};
      calls := calls + [Close(handle)];
    }

    /** Popen.kill; an error it raises is suppressed by the caller. */
    method KillRoot()
      requires Valid() && root.Some?
      modifies `alive, `used, `members, `calls
      ensures Valid() && (old(Tracked()) ==> Tracked()) && calls == old(calls) + [Kill(root.value)]
      ensures !ran || old(alive) == {} ==> alive <= old(alive)
      ensures root.value !in old(alive) ==> root.value !in alive
    {
      calls := calls + [Kill(root.value)];
      Evolve();
    }

    /** Popen.wait with a time limit that may run out. */
    method Reap()
      requires Valid()
      modifies `alive, `used, `members
      ensures Valid() && (old(Tracked()) ==> Tracked())
      ensures !ran || old(alive) == {} ==> alive <= old(alive)
      ensures root.Some? && root.value !in old(alive) ==> root.value !in alive
    {
      Evolve();
    }

    /** Popen.poll: whether the root is still running. */
    method Poll() returns (running: bool)
      requires Valid() && root.Some?
      modifies `calls
      ensures Valid() && running == (root.value in alive) && calls == old(calls) + [Polled(running)]
    {
      running := root.value in alive;
      calls := calls + [Polled(running)];
    }
  }

  /** How a call ends: normally, with one of the loop's own errors, or with whatever else was raised in it. */
  datatype Outcome = Returned | AgentError | CleanupUnconfirmed | Interrupted

  /** One or more answers to how many processes the job has. */
  predicate AllCounts(calls: seq<Call>) {
    calls != [] && forall i :: 0 <= i < |calls| ==> calls[i].Counted?
  }

  /** Terminate the job, and wait until the kernel counts no member of it. */
  method ConfirmJobEmpty(k: Kernel, job: Handle) returns (outcome: Outcome, ghost counts: seq<Call>)
    requires k.Valid()
    modifies k`alive, k`used, k`members, k`calls
    ensures k.Valid() && (old(k.Tracked()) ==> k.Tracked())
    ensures AllCounts(counts) && k.calls == old(k.calls) + [Terminate(job)] + counts
    ensures outcome == if counts[|counts| - 1] == Counted(Some(0)) then Returned else CleanupUnconfirmed
    ensures outcome == Returned ==> k.alive * k.members == {}
  {
    k.TerminateJob(job);
    var polls: nat := *;
    var remaining := k.ActiveCount();
    counts := [Counted(remaining)];
    while remaining.Some? && remaining.value > 0 && polls > 0
      invariant k.Valid() && (old(k.Tracked()) ==> k.Tracked())
      invariant AllCounts(counts) && counts[|counts| - 1] == Counted(remaining)
      invariant k.calls == old(k.calls) + [Terminate(job)] + counts
      invariant remaining == Some(0) ==> k.alive * k.members == {}
      decreases polls
    {
      remaining := k.ActiveCount();
      polls := polls - 1;
      ghost var before := counts;
      counts := counts + [Counted(remaining)];
      assert old(k.calls) + [Terminate(job)] + before + [Counted(remaining)] ==
          old(k.calls) + [Terminate(job)] + counts;
    }
    outcome := if remaining != Some(0) then CleanupUnconfirmed else Returned;
  }

  class AgentJob {
    const kernel: Kernel
    var process: Option<Pid>
    var handle: Option<Handle>
    var member: bool
    var suspended: bool

    constructor (kernel: Kernel)
      ensures this.kernel == kernel && process.None? && handle.None? && !member && suspended
    {
      this.kernel := kernel;
      process, handle, member, suspended := None, None, false, true;
    }

    /** What the record says is so. A process that is not suspended is a member of the job, and with it all it
        started. */
    ghost predicate Valid()
      reads this, kernel
    {
      && kernel.Valid() && process == kernel.root
      && (handle.Some? ==> process.Some? && handle.value in kernel.open)
      && (member ==> handle.Some? && kernel.Tracked())
      && (process.Some? && (kernel.ran || !suspended) ==> member)
    }

    /** Nothing is left to close, to kill or to answer for. */
    ghost predicate Released()
      reads this
    {
      process.None? || (handle.None? && !member && !suspended)
    }

    /** Put the suspended process under a job and resume it; an exception may strike between any two steps. */
    method Track() returns (outcome: Outcome)
      requires Valid() && process.Some? && suspended && !member && handle.None? && !kernel.ran
      modifies this`handle, this`member, this`suspended, kernel
      ensures Valid() && kernel.calls == old(kernel.calls) && kernel.root == old(kernel.root)
      ensures outcome == Returned ==> member && !suspended && kernel.ran
      ensures outcome == AgentError ==> suspended
      ensures outcome != CleanupUnconfirmed
    {
      kernel.Evolve();
      if * { return Interrupted; }
      var created := kernel.CreateJobObject();
      if * { return Interrupted; }
      if created.Some? {
        handle := created;
        if * { return Interrupted; }
        var joined := kernel.Assign(process.value);
        kernel.Evolve();
        if * { return Interrupted; }
        member := joined;
      }
      if * { return Interrupted; }
      if !member {
        return AgentError;
      }
      kernel.Evolve();
      if * { return Interrupted; }
      var resumed := kernel.Resume();
      kernel.Evolve();
      if * { return Interrupted; }
      if !resumed {
        return AgentError;
      }
      suspended := false;
      return Returned;
    }

    /** Kill the tree through its job while the agent should be running; the handle is only lent. */
    method TerminateTree() returns (outcome: Outcome)
      requires Valid() && member
      modifies kernel
      ensures Valid() && kernel.ran == old(kernel.ran) && kernel.root == old(kernel.root)
                && kernel.open == old(kernel.open)
      ensures NoneClosed(kernel.calls, |old(kernel.calls)|)
      ensures outcome == Returned ==> kernel.alive == {}
    {
      ghost var counts;
      outcome, counts := ConfirmJobEmpty(kernel, handle.value);
      if outcome != Returned { return; }
      kernel.KillRoot();
      if * { return Interrupted; }
      kernel.Reap();
      var running := kernel.Poll();
      outcome := if running then CleanupUnconfirmed else Returned;
    }

    /** Hand over the prompt and wait for the agent: it may refuse, run out of time or end, and anything may be
        raised. */
    method Attend() returns (outcome: Outcome)
      requires Valid() && member
      modifies kernel
      ensures Valid() && kernel.ran == old(kernel.ran) && kernel.root == old(kernel.root)
                && kernel.open == old(kernel.open)
      ensures NoneClosed(kernel.calls, |old(kernel.calls)|)
    {
      kernel.Evolve();
      if * { return Interrupted; }
      if * {
        outcome := TerminateTree();
        if outcome != Returned { return; }
        return AgentError;
      }
      return Returned;
    }

    /** Give up everything the record holds, exactly once, and confirm the processes gone. */
    method Release() returns (outcome: Outcome, ghost asked: seq<Call>)
      requires Released() || Valid()
      requires kernel.Valid()
      modifies this`handle, this`member, this`suspended, kernel
      ensures kernel.Valid() && Released() && kernel.calls == old(kernel.calls) + asked
      ensures Asks(asked, process, old(handle), old(member), old(suspended), outcome)
      ensures old(Released()) ==> unchanged(kernel)
      ensures kernel.ran == old(kernel.ran)
      ensures old(Valid()) && outcome == Returned ==> kernel.alive == {}
      ensures old(Valid()) && process.Some? && old(handle).Some? ==> old(handle).value !in kernel.open
    {
      var job, isMember, isSuspended := handle, member, suspended;
      handle, member, suspended := None, false, false;
      asked := [];
      if process.None? {
        return Returned, asked;
      }
      outcome := Returned;
      if job.Some? {
        if isMember {
          ghost var counts;
          outcome, counts := ConfirmJobEmpty(kernel, job.value);
          asked := [Terminate(job.value)] + counts;
          if outcome == Returned {
            kernel.Reap();
          }
        }
        kernel.CloseHandle(job.value);
        asked := asked + [Close(job.value)];
      }
      if isMember || !isSuspended {
        return;
      }
      kernel.KillRoot();
      kernel.Reap();
      var running := kernel.Poll();
      asked := asked + [Kill(process.value), Polled(running)];
      if running {
        outcome := CleanupUnconfirmed;
      }
    }
  }

  predicate NoneClosed(calls: seq<Call>, from: nat) {
    from <= |calls| && forall i :: from <= i < |calls| ==> !calls[i].Close?
  }

  /** What a release asks of the kernel, by what was recorded, and what the answer makes of it: a job is terminated,
      counted and closed, a handle without a member is closed, a process still suspended is killed and looked at. */
  ghost predicate Asks(calls: seq<Call>, process: Option<Pid>, handle: Option<Handle>, member: bool,
                       suspended: bool, outcome: Outcome) {
    if process.None? || (handle.None? && !member && !suspended) then calls == [] && outcome == Returned
    else if member then
      && handle.Some?
      && exists counts ::
           && AllCounts(counts) && calls == [Terminate(handle.value)] + counts + [Close(handle.value)]
           && outcome == if counts[|counts| - 1] == Counted(Some(0)) then Returned else CleanupUnconfirmed
    else
      var closing := if handle.Some? then [Close(handle.value)] else [];
      if suspended then
        exists running :: calls == closing + [Kill(process.value), Polled(running)]
                          && outcome == if running then CleanupUnconfirmed else Returned
      else calls == closing && outcome == Returned
  }

  lemma ClosedOnce(calls: seq<Call>, process: Option<Pid>, handle: Handle, member: bool, suspended: bool,
                   outcome: Outcome)
    requires Asks(calls, process, Some(handle), member, suspended, outcome) && process.Some?
    ensures multiset(calls)[Close(handle)] == 1
  {
    if member {
      var counts :| AllCounts(counts) && calls == [Terminate(handle)] + counts + [Close(handle)];
      assert Close(handle) !in multiset(counts);
    }
  }

  /** Launch, track and attend to the agent. */
  method Attempt(job: AgentJob) returns (outcome: Outcome)
    requires job.Valid() && job.process.None? && job.suspended && !job.member && job.kernel.calls == []
    modifies job, job.kernel
    ensures job.Valid() && (job.process.None? ==> job.handle.None?)
    ensures NoneClosed(job.kernel.calls, 0)
    ensures outcome == Returned ==> job.kernel.ran
  {
    outcome := Interrupted;
    if * {
      job.process := job.kernel.Launch();
      if job.process.Some? {
        outcome := job.Track();
        if outcome == Returned {
          outcome := job.Attend();
        }
      }
    }
  }

  /** One launch. Whatever is raised, and wherever, the processes are confirmed gone unless that is what is raised, and
      a handle that was recorded is closed exactly once. */
  method RunAgent() returns (kernel: Kernel, outcome: Outcome, ghost recorded: Option<Handle>)
    ensures outcome != CleanupUnconfirmed ==> kernel.alive == {}
    ensures outcome == Returned ==> kernel.ran
    ensures recorded.Some? ==> multiset(kernel.calls)[Close(recorded.value)] == 1 && recorded.value !in kernel.open
  {
    kernel := new Kernel();
    var job := new AgentJob(kernel);
    outcome := Attempt(job);
    recorded := job.handle;
    ghost var before, wasMember, wasSuspended := kernel.calls, job.member, job.suspended;
    var released, asked := job.Release();
    if recorded.Some? {
      ClosedOnce(asked, job.process, recorded.value, wasMember, wasSuspended, released);
      NotClosedBefore(before, asked, recorded.value);
    }
    if released != Returned {
      outcome := released;
    }
  }

  lemma NotClosedBefore(before: seq<Call>, asked: seq<Call>, handle: Handle)
    requires NoneClosed(before, 0)
    ensures multiset(before + asked)[Close(handle)] == multiset(asked)[Close(handle)]
  {
    assert Close(handle) !in before;
    assert multiset(before + asked) == multiset(before) + multiset(asked);
  }
}
