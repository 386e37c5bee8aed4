/** The holder record in the lock file, and the judgement of when it may be broken (tools/run_lock.py). */
module RunLockRecord {
  import opened Options

  type Host = string
  type OwnerId = nat

  const LOCK_RECORD_VERSION: int := 1
  const LOCK_CLEANUP_RECORD_VERSION: int := 2

  /** A JSON record as a reader judges it: a `pid` that is no integer, an absent `host` and an absent
      `owner_id` are None. `cleanup` says that the cleanup field is present and not empty. */
  datatype Record = Record(version: int, owner: Option<OwnerId>, pid: Option<int>, host: Option<Host>, cleanup: bool)

  datatype Stale = NoUsablePid | HolderGone(pid: int)

  predicate Usable(pid: Option<int>) {
    pid.Some? && pid.value > 0
  }

  /** Why a lock may be broken on machine `here`, or None; `running` is what the liveness probe answers. */
  function StaleReason(record: Option<Record>, here: Host, running: int -> bool): (reason: Option<Stale>)
    ensures reason.Some? <==>
              && record.Some? && !record.value.cleanup && record.value.version == LOCK_RECORD_VERSION
              && record.value.host == Some(here)
              && (Usable(record.value.pid) ==> !running(record.value.pid.value))
  {
    if record.None? then None
    else if record.value.cleanup then None
    else if record.value.version != LOCK_RECORD_VERSION then None
    else if record.value.host != Some(here) then None
    else if !Usable(record.value.pid) then Some(NoUsablePid)
    else if running(record.value.pid.value) then None
    else Some(HolderGone(record.value.pid.value))
  }

  /** What a reader from before the cleanup field judges by: the version, the host and the pid alone. */
  function OldStaleReason(record: Option<Record>, here: Host, running: int -> bool): Option<Stale> {
    if record.None? then None else StaleReason(Some(record.value.(cleanup := false)), here, running)
  }
}
