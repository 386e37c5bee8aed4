/** Bringing rotated logins back from a container, and when its volume, its container and the machine are given up
    (tools/loop_in_container.py, evals/install/refresh_login.py). */
module LoginWriteBack {
  import opened Json
  import opened Options

  // ----- What a login looks like -----

  /** The characters str.strip removes. */
  predicate IsSpace(c: char) {
    var p := c as int;
    || 0x09 <= p <= 0x0d || 0x1c <= p <= 0x20 || p == 0x85 || p == 0xa0 || p == 0x1680 || 0x2000 <= p <= 0x200a
    || p == 0x2028 || p == 0x2029 || p == 0x202f || p == 0x205f || p == 0x3000
  }

  predicate Blank(text: string) {
    forall i :: 0 <= i < |text| ==> IsSpace(text[i])
  }

  /** Text that is not blank under the keys, one inside the other. */
  predicate HasText(node: Json, path: seq<string>)
    decreases |path|
  {
    if path == [] then node.Str? && !Blank(node.s)
    else Get(node, path[0]).Some? && HasText(Get(node, path[0]).value, path[1..])
  }

  predicate UsableLogin(kind: string, document: Json) {
    && document.Obj?
    && (if kind == "claude-auth" then
          HasText(document, ["claudeAiOauth", "accessToken"]) && HasText(document, ["claudeAiOauth", "refreshToken"])
        else if kind == "codex-auth" then
          || (HasText(document, ["tokens", "access_token"]) && HasText(document, ["tokens", "refresh_token"]))
          || HasText(document, ["OPENAI_API_KEY"])
        else if kind == "opencode-auth" then
          exists i :: 0 <= i < |document.entries| && document.entries[i].value.Obj?
                      && HasText(document.entries[i].value, ["access"])
                          && HasText(document.entries[i].value, ["refresh"])
        else false)
  }

  const RETURNED := ["claude-auth", "codex-auth"]
  const EXIT_WRAPPER_FAILED := 20

  // ----- One copy -----

  /** A stored login; one that is not UTF-8 cannot be read as text. */
  datatype File = Text(content: string) | Undecodable

  /** What came back. Text with an unpaired surrogate, which JSON can spell, can be parsed and compared but not
      encoded. */
  datatype Copy = Copy(text: string, unpaired: bool)

  /** What the JSON parser makes of a copy; it gives up on one that is nested too deeply with an error of its own
      kind. */
  datatype Parsed = Document(json: Json) | NotJson | ParseRaises

  /** How the file operations of one write-back go. An operating-system error of the read, the backup, the create or the
      replacement is caught. Any other error, and an interruption before or after the replacement, escapes. */
  datatype Io = Works | ReadFails | BackupFails | CreateFails | ReplaceFails | Raises | Interrupted | InterruptedLate

  datatype Outcome = Absent | Failed | Rejected | Unchanged | Applied

  predicate Confirmed(outcome: Outcome) {
    outcome == Applied || outcome == Unchanged
  }

  /** The outcomes that are announced. */
  predicate Said(outcome: Outcome) {
    outcome == Failed || outcome == Rejected || outcome == Applied
  }

  predicate Present(copy: Option<Copy>) {
    copy.Some? && !Blank(copy.value.text)
  }

  predicate Usable(kind: string, parsed: Parsed) {
    parsed.Document? && UsableLogin(kind, parsed.json)
  }

  /** The stored login is the copy. */
  predicate IsStored(stored: Option<File>, copy: Copy) {
    stored == Some(Text(copy.text)) && !copy.unpaired
  }

  predicate NeedsBackup(stored: Option<File>) {
    stored.Some? && stored.value != Text("")
  }

  /** The write-back comes to the point where it writes the copy. */
  predicate Writes(copy: Copy, stored: Option<File>, io: Io) {
    && io !in {ReadFails, CreateFails, Raises, Interrupted} && !(io == BackupFails && NeedsBackup(stored))
    && stored != Some(Undecodable) && !IsStored(stored, copy)
  }

  /** Something escapes: the parser gives up on the copy, or the copy is usable and an error that is not the operating
      system's strikes, the stored file is no text, or the copy that is to be written cannot be encoded. */
  predicate Escaping(kind: string, copy: Option<Copy>, parsed: Parsed, stored: Option<File>, io: Io) {
    && Present(copy)
    && (|| parsed == ParseRaises
        || (Usable(kind, parsed)
            && (|| io in {Raises, Interrupted}
                || (stored == Some(Undecodable) && io != ReadFails)
                || (Writes(copy.value, stored, io) && (copy.value.unpaired || io == InterruptedLate)))))
  }

  /** What becomes of a copy, by the copy, the stored file and the file operations; None for what escapes. */
  function OutcomeOf(kind: string, copy: Option<Copy>, parsed: Parsed, stored: Option<File>, io: Io)
    : (outcome: Option<Outcome>)
    ensures outcome.None? <==> Escaping(kind, copy, parsed, stored, io)
  {
    if !Present(copy) then Some(Absent)
    else if parsed.ParseRaises? then None
    else if !Usable(kind, parsed) then Some(Rejected)
    else ReplaceOutcome(copy.value, stored, io)
  }

  /** What becomes of a usable copy. */
  function ReplaceOutcome(copy: Copy, stored: Option<File>, io: Io): (outcome: Option<Outcome>)
    ensures outcome.None? <==>
              || io in {Raises, Interrupted} || (stored == Some(Undecodable) && io != ReadFails)
              || (Writes(copy, stored, io) && (copy.unpaired || io == InterruptedLate))
  {
    if io == ReadFails then Some(Failed)
    else if io == Interrupted || io == Raises || stored == Some(Undecodable) then None
    else if IsStored(stored, copy) then Some(Unchanged)
    else if io == CreateFails || (io == BackupFails && NeedsBackup(stored)) then Some(Failed)
    else if copy.unpaired || io == InterruptedLate then None
    else if io == ReplaceFails then Some(Failed)
    else Some(Applied)
  }

  /** The stored login is replaced: an interruption can come too late to stop it. */
  predicate Replaces(copy: Copy, stored: Option<File>, io: Io) {
    ReplaceOutcome(copy, stored, if io == InterruptedLate then Works else io) == Some(Applied)
  }

  function At(logins: map<string, File>, kind: string): Option<File> {
    if kind in logins then Some(logins[kind]) else None
  }

  /** The parser's answer for a copy that came back. */
  function Parse(parse: Copy -> Parsed, copy: Option<Copy>): Parsed {
    if copy.Some? then parse(copy.value) else NotJson
  }

  function OutcomeAt(parse: Copy -> Parsed, logins: map<string, File>, kind: string, copy: Option<Copy>, io: Io)
    : Option<Outcome> {
    OutcomeOf(kind, copy, Parse(parse, copy), At(logins, kind), io)
  }

  /** The stored logins after a write-back: replaced whole, which an interruption may come too late for, or left
      alone. */
  function LoginsAfter(parse: Copy -> Parsed, logins: map<string, File>, kind: string, copy: Option<Copy>, io: Io)
    : map<string, File> {
    if Present(copy) && Usable(kind, parse(copy.value)) && Replaces(copy.value, At(logins, kind), io) then
      logins[kind := Text(copy.value.text)]
    else logins
  }

  // ----- One run -----

  /** How one step of the cleanup ends: done, with an error that is caught, or with something that escapes. */
  datatype Step = Passes | Fails | Escapes

  datatype Lock = Held | Released | KeptForCleanup

  /** What the helper container makes of the staged copies. */
  datatype Readback = Copies | Unreadable | ReadbackRaises

  /** What the container's run gives: the copies read while it ran, what it staged, and how its output ended. */
  datatype StreamEnd = Exited(code: int) | InterruptedStream | RaisedInStream

  /** One agent's end: the kinds it may have rotated, what can be read, and how the file operations go. */
  datatype AgentEnd = AgentEnd(kinds: seq<string>, read: string -> Option<Copy>, io: string -> Io)

  /** `announceRaises`: saying what became of the staged copies fails, as on a standard error that is closed;
      `reportRaises`: so does the report after the cleanup. */
  datatype Answers = Answers(volumeCreated: bool, agents: seq<AgentEnd>, staged: map<string, Copy>, stream: StreamEnd,
                             readback: Readback, io: string -> Io, announceRaises: bool, container: Step, volume: Step,
                             reportRaises: bool)

  /** How a run ends: with an exit code, or with what escaped. */
  datatype Ending = Exit(code: int) | Raised

  function Returned(): set<string> {
    set k | k in RETURNED
  }

  /** No login that does not travel back is touched. */
  ghost predicate OthersKept(before: map<string, File>, after: map<string, File>) {
    before - Returned() == after - Returned()
  }

  /** No login but that of one kind is touched. */
  ghost predicate OnlyChanges(before: map<string, File>, after: map<string, File>, kind: string) {
    (forall k :: k != kind ==> At(after, k) == At(before, k)) && (kind in RETURNED ==> OthersKept(before, after))
  }

  predicate Distinct(kinds: seq<string>) {
    forall i, j :: 0 <= i < j < |kinds| ==> kinds[i] != kinds[j]
  }

  /** The kinds that travel back. */
  function Wanted(kinds: seq<string>): (wanted: seq<string>)
    ensures forall k :: k in wanted <==> k in kinds && k in RETURNED
    ensures Distinct(kinds) ==> Distinct(wanted)
  {
    if kinds == [] then []
    else
      assert Distinct(kinds) ==> forall i :: 0 < i < |kinds| ==> kinds[0] != kinds[i];
      (if kinds[0] in RETURNED then [kinds[0]] else []) + Wanted(kinds[1..])
  }

  /** The logins after one agent's end, and what escaped from taking them back. */
  function AfterAgent(parse: Copy -> Parsed, logins: map<string, File>, kinds: seq<string>, agent: AgentEnd)
    : (after: (map<string, File>, Option<StreamEnd>))
    ensures after.1.Some? ==> !after.1.value.Exited?
    decreases kinds
  {
    if kinds == [] then (logins, None)
    else if kinds[0] !in RETURNED || kinds[0] !in agent.kinds then AfterAgent(parse, logins, kinds[1..], agent)
    else
      var (copy, io) := (agent.read(kinds[0]), agent.io(kinds[0]));
      var after := LoginsAfter(parse, logins, kinds[0], copy, io);
      if OutcomeAt(parse, logins, kinds[0], copy, io).None? then
        (after, Some(if io in {Interrupted, InterruptedLate} then InterruptedStream else RaisedInStream))
      else AfterAgent(parse, after, kinds[1..], agent)
  }

  /** The logins when the container's output has ended, however it did, and how that is. */
  function AfterAgents(parse: Copy -> Parsed, logins: map<string, File>, kinds: seq<string>, agents: seq<AgentEnd>,
                       stream: StreamEnd): (map<string, File>, StreamEnd)
    decreases agents
  {
    if agents == [] then (logins, stream)
    else
      var (after, escape) := AfterAgent(parse, logins, kinds, agents[0]);
      if escape.Some? then (after, escape.value) else AfterAgents(parse, after, kinds, agents[1..], stream)
  }

  function StagedCopy(staged: map<string, Copy>, kind: string): Option<Copy> {
    if kind in staged then Some(staged[kind]) else None
  }

  /** What becomes of the staged copy of a kind. */
  function StagedOutcome(parse: Copy -> Parsed, logins: map<string, File>, staged: map<string, Copy>, kind: string,
                         io: string -> Io): Option<Outcome> {
    OutcomeAt(parse, logins, kind, StagedCopy(staged, kind), io(kind))
  }

  /** Something escapes from the readback itself, or from the write-back of some staged copy. */
  predicate ReadbackEscapes(parse: Copy -> Parsed, logins: map<string, File>, staged: map<string, Copy>,
                            kinds: seq<string>,
                            readback: Readback, io: string -> Io) {
    && kinds != []
    && (|| readback == ReadbackRaises
        || (readback == Copies && exists k :: k in kinds && StagedOutcome(parse, logins, staged, k, io).None?))
  }

  predicate IsSaid(outcome: Option<Outcome>) {
    outcome.Some? && Said(outcome.value)
  }

  /** There is something to announce about the staged copies. */
  predicate ReadbackSpeaks(parse: Copy -> Parsed, logins: map<string, File>, staged: map<string, Copy>,
                           kinds: seq<string>,
                           readback: Readback, io: string -> Io) {
    && kinds != []
    && (|| readback == Unreadable
        || (readback == Copies && exists k :: k in kinds && IsSaid(StagedOutcome(parse, logins, staged, k, io))))
  }

  /** Something escapes from the readback, from the announcement of what it found, or from the removal of the container.
      `logins` are those stored when the container's output has ended. */
  predicate CleanupEscapes(parse: Copy -> Parsed, logins: map<string, File>, kinds: seq<string>, a: Answers) {
    || ReadbackEscapes(parse, logins, a.staged, Wanted(kinds), a.readback, a.io)
    || (a.announceRaises && ReadbackSpeaks(parse, logins, a.staged, Wanted(kinds), a.readback, a.io))
    || a.container == Escapes
  }

  /** The first n kinds' staged copies are the stored logins. */
  ghost predicate CopiesHeld(logins: map<string, File>, staged: map<string, Copy>, kinds: seq<string>, n: nat)
    requires n <= |kinds|
  {
    forall j :: 0 <= j < n ==> kinds[j] in staged && IsStored(At(logins, kinds[j]), staged[kinds[j]])
  }

  /** The logins of the kinds from the n-th on are as they were. */
  ghost predicate LaterKept(before: map<string, File>, after: map<string, File>, kinds: seq<string>, n: nat) {
    forall j :: n <= j < |kinds| ==> At(after, kinds[j]) == At(before, kinds[j])
  }

  class Machine {
    const parse: Copy -> Parsed
    var logins: map<string, File>
    var backups: map<string, File>
    var staged: map<string, Copy>
    var volume: bool
    /** A container was started and is not confirmed removed. */
    var container: bool
    var lock: Lock

    constructor (parse: Copy -> Parsed, logins: map<string, File>)
      ensures this.parse == parse && this.logins == logins && !volume && !container && lock == Held
    {
      this.parse, this.logins, backups, staged := parse, logins, map[], map[];
      volume, container, lock := false, false, Held;
    }

    /** Put a usable copy where this machine keeps the login, with the previous one beside it. */
    method Replace(kind: string, content: Copy, io: Io) returns (outcome: Option<Outcome>)
      modifies `logins, `backups
      ensures OnlyChanges(old(logins), logins, kind)
      ensures outcome == ReplaceOutcome(content, old(At(logins, kind)), io)
      ensures logins ==
                if Replaces(content, old(At(logins, kind)), io) then old(logins)[kind := Text(content.text)]
                    else old(logins)
      ensures outcome.Some? && Confirmed(outcome.value) ==> IsStored(At(logins, kind), content)
      ensures Replaces(content, old(At(logins, kind)), io) && NeedsBackup(old(At(logins, kind))) ==>
                kind in backups && Some(backups[kind]) == old(At(logins, kind))
    {
      if io == ReadFails {
        return Some(Failed);
      }
      if io == Interrupted || io == Raises {
        return None;
      }
      var current := "";
      if kind in logins {
        if logins[kind] == Undecodable {
          return None;
        }
        current := logins[kind].content;
        if current == content.text && !content.unpaired {
          return Some(Unchanged);
        }
      }
      if current != "" {
        if io == BackupFails {
          backups := backups - {kind};
          return Some(Failed);
        }
        backups := backups[kind := logins[kind]];
      }
      if io == CreateFails {
        return Some(Failed);
      }
      if content.unpaired {
        return None;
      }
      if io == ReplaceFails {
        return Some(Failed);
      }
      logins := logins[kind := Text(content.text)];
      return if io == InterruptedLate then None else Some(Applied);
    }

    /** Put a copy back where this machine keeps the login. The stored file is either replaced whole or left alone. */
    method WriteBack(kind: string, copy: Option<Copy>, io: Io) returns (outcome: Option<Outcome>)
      modifies `logins, `backups
      ensures OnlyChanges(old(logins), logins, kind)
      ensures outcome == OutcomeAt(parse, old(logins), kind, copy, io)
      ensures logins == LoginsAfter(parse, old(logins), kind, copy, io)
      ensures outcome.Some? && Confirmed(outcome.value) ==> copy.Some? && IsStored(At(logins, kind), copy.value)
      ensures logins != old(logins) && NeedsBackup(old(At(logins, kind))) ==>
                kind in backups && Some(backups[kind]) == old(At(logins, kind))
    {
      if copy.None? || Blank(copy.value.text) {
        return Some(Absent);
      }
      var document := parse(copy.value);
      if document.ParseRaises? {
        return None;
      }
      if !Usable(kind, document) {
        return Some(Rejected);
      }
      outcome := Replace(kind, copy.value, io);
    }

    /** Take back what a running container holds, as far as it can be read; Some for what escapes. */
    method CollectFromContainer(kinds: seq<string>, agent: AgentEnd) returns (escape: Option<StreamEnd>)
      modifies `logins, `backups
      ensures OthersKept(old(logins), logins)
      ensures (logins, escape) == AfterAgent(parse, old(logins), kinds, agent)
    {
      escape := None;
      assert kinds[0..] == kinds;
      for i := 0 to |kinds|
        invariant OthersKept(old(logins), logins)
        invariant AfterAgent(parse, logins, kinds[i..], agent) == AfterAgent(parse, old(logins), kinds, agent)
      {
        assert kinds[i..][0] == kinds[i] && kinds[i..][1..] == kinds[i + 1..];
        if kinds[i] in RETURNED && kinds[i] in agent.kinds {
          var outcome := WriteBack(kinds[i], agent.read(kinds[i]), agent.io(kinds[i]));
          if outcome.None? {
            return Some(if agent.io(kinds[i]) in {Interrupted, InterruptedLate} then InterruptedStream
                else RaisedInStream);
          }
        }
      }
    }

    /** The copies this machine holds: every returned kind's staged copy is the stored login. */
    ghost predicate Recovered(kinds: seq<string>)
      reads this
    {
      forall k :: k in kinds && k in RETURNED ==> k in staged && IsStored(At(logins, k), staged[k])
    }

    /** Write the staged copy of one kind back. */
    method TakeBackStaged(kind: string, io: string -> Io) returns (outcome: Option<Outcome>)
      modifies `logins, `backups
      ensures outcome == StagedOutcome(parse, old(logins), staged, kind, io)
      ensures OnlyChanges(old(logins), logins, kind)
      ensures outcome.Some? && Confirmed(outcome.value) ==> kind in staged && IsStored(At(logins, kind), staged[kind])
    {
      outcome := WriteBack(kind, StagedCopy(staged, kind), io(kind));
    }

    /** Take back what the run left staged. What cannot be confirmed is named, `said` tells whether there is anything to
        announce; None when something escapes. */
    method CollectFromVolume(kinds: seq<string>, readback: Readback, io: string -> Io)
      returns (unresolved: Option<seq<string>>, said: bool)
      requires Distinct(kinds)
      modifies `logins, `backups
      ensures OthersKept(old(logins), logins)
      ensures unresolved == Some([]) ==> Recovered(kinds)
      ensures unresolved.None? <==> ReadbackEscapes(parse, old(logins), staged, Wanted(kinds), readback, io)
      ensures unresolved.Some? ==> (said <==> ReadbackSpeaks(parse, old(logins), staged, Wanted(kinds), readback, io))
      ensures unresolved.Some? && readback == Copies ==>
                forall k :: k in unresolved.value ==> k in kinds && k in RETURNED
    {
      var wanted := Wanted(kinds);
      said := false;
      if wanted == [] {
        return Some([]), said;
      }
      if readback == ReadbackRaises {
        return None, said;
      }
      if readback == Unreadable {
        return Some(["the staged logins"]), true;
      }
      var failed: seq<string> := [];
      for i := 0 to |wanted|
        invariant OthersKept(old(logins), logins) && LaterKept(old(logins), logins, wanted, i)
        invariant Done(parse, old(logins), staged, wanted[..i], io, said)
        invariant failed == [] ==> CopiesHeld(logins, staged, wanted, i)
        invariant forall k :: k in failed ==> k in wanted
      {
        ghost var before := logins;
        var outcome := TakeBackStaged(wanted[i], io);
        SameOutcome(parse, old(logins), before, staged, wanted[i], io);
        OnlyOneChanges(before, logins, staged, wanted, i);
        if outcome.None? {
          return None, said;
        }
        OneMoreDone(parse, old(logins), staged, wanted, i, io, said);
        said := said || IsSaid(outcome);
        if !Confirmed(outcome.value) {
          failed := failed + [wanted[i]];
        }
      }
      assert wanted[..|wanted|] == wanted;
      return Some(failed), said;
    }

    /** One run: the container, and whatever happens, the copies read back and the container and the volume removed as
        far as that is safe. The machine is given up unless the container could not be confirmed removed. */
    method Run(kinds: seq<string>, a: Answers) returns (ending: Ending, ghost escaped: bool)
      requires Distinct(kinds) && lock == Held && !volume && !container
      modifies this
      ensures OthersKept(old(logins), logins)
      // The volume goes only when this machine holds every copy staged in it.
      ensures a.volumeCreated && !volume ==> staged == a.staged && Recovered(kinds)
      // Success is the loop's own exit, with nothing left behind.
      ensures ending.Exit? && ending.code != EXIT_WRAPPER_FAILED ==>
                !volume && !container && a.stream == Exited(ending.code)
      // What escapes: from the readback of the copies, from its announcement, or from the removal of the container.
      ensures escaped <==>
                && a.volumeCreated
                && CleanupEscapes(parse, AfterAgents(parse, old(logins), kinds, a.agents, a.stream).0, kinds, a)
      ensures escaped ==> ending == Raised
      // The machine is kept exactly when the removal of the container failed.
      ensures lock == KeptForCleanup <==> a.volumeCreated && !escaped && a.container == Fails
      // It is given up only with the container gone, exactly when nothing escapes from the cleanup up to the removal.
      ensures lock != Held && ((lock == Released ==> !container) <==> !escaped)
    {
      escaped := false;
      if !a.volumeCreated {
        lock := Released;
        return Exit(EXIT_WRAPPER_FAILED), escaped;
      }
      volume, container := true, true;
      var stream := Stream(kinds, a);
      staged := a.staged;
      var unresolved, said := CollectFromVolume(kinds, a.readback, a.io);
      if unresolved.None? || (said && a.announceRaises) || a.container == Escapes {
        lock, escaped := Released, true;
        return Raised, escaped;
      }
      var remaining := a.container == Fails;
      if a.container == Passes {
        container := false;
      }
      if unresolved.value == [] {
        if a.volume == Passes {
          volume := false;
        }
        remaining := remaining || a.volume == Fails;
      }
      lock := if a.container == Fails then KeptForCleanup else Released;
      if stream == RaisedInStream || (unresolved.value == [] && a.volume == Escapes) || a.reportRaises {
        return Raised, escaped;
      }
      if remaining || unresolved.value != [] || stream == InterruptedStream {
        return Exit(EXIT_WRAPPER_FAILED), escaped;
      }
      return Exit(stream.code), escaped;
    }

    /** The container's output, with the logins taken back at every agent's end until something escapes. */
    method Stream(kinds: seq<string>, a: Answers) returns (stream: StreamEnd)
      modifies `logins, `backups
      ensures OthersKept(old(logins), logins)
      ensures (logins, stream) == AfterAgents(parse, old(logins), kinds, a.agents, a.stream)
      ensures stream.Exited? ==> stream == a.stream
    {
      stream := a.stream;
      assert a.agents[0..] == a.agents;
      for i := 0 to |a.agents|
        invariant OthersKept(old(logins), logins) && stream == a.stream
        invariant AfterAgents(parse, logins, kinds, a.agents[i..], a.stream)
               == AfterAgents(parse, old(logins), kinds, a.agents, a.stream)
      {
        assert a.agents[i..][0] == a.agents[i] && a.agents[i..][1..] == a.agents[i + 1..];
        var escape := CollectFromContainer(kinds, a.agents[i]);
        if escape.Some? {
          stream := escape.value;
          break;
        }
      }
    }
  }

  /** Nothing escaped from the write-back of these kinds' staged copies, and `said` tells whether there is something to
      announce about them. */
  ghost predicate Done(parse: Copy -> Parsed, logins: map<string, File>, staged: map<string, Copy>, kinds: seq<string>,
                       io: string -> Io, said: bool) {
    && (forall k :: k in kinds ==> StagedOutcome(parse, logins, staged, k, io).Some?)
    && (said <==> exists k :: k in kinds && IsSaid(StagedOutcome(parse, logins, staged, k, io)))
  }

  lemma OneMoreDone(parse: Copy -> Parsed, logins: map<string, File>, staged: map<string, Copy>,
                    kinds: seq<string>, n: nat,
                    io: string -> Io, said: bool)
    requires n < |kinds| && Done(parse, logins, staged, kinds[..n], io, said)
    requires StagedOutcome(parse, logins, staged, kinds[n], io).Some?
    ensures Done(parse, logins, staged, kinds[..n + 1], io, said
              || IsSaid(StagedOutcome(parse, logins, staged, kinds[n], io)))
  {
    assert kinds[..n + 1] == kinds[..n] + [kinds[n]];
  }

  lemma SameOutcome(parse: Copy -> Parsed, before: map<string, File>, after: map<string, File>, staged: map<string,
                    Copy>,
                    kind: string, io: string -> Io)
    requires At(after, kind) == At(before, kind)
    ensures StagedOutcome(parse, after, staged, kind, io) == StagedOutcome(parse, before, staged, kind, io)
  {
  }

  lemma OnlyOneChanges(before: map<string, File>, after: map<string, File>, staged: map<string, Copy>,
                       kinds: seq<string>, n: nat)
    requires Distinct(kinds) && n < |kinds|
    requires OnlyChanges(before, after, kinds[n])
    ensures LaterKept(before, after, kinds, n + 1)
    ensures CopiesHeld(before, staged, kinds, n) && kinds[n] in staged
              && IsStored(At(after, kinds[n]), staged[kinds[n]]) ==>
              CopiesHeld(after, staged, kinds, n + 1)
  {
    forall j | 0 <= j < |kinds| && j != n ensures At(after, kinds[j]) == At(before, kinds[j]) {
    }
  }
}
