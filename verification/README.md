# Verified models of the run lock, the redactor, the review loop and the score gate

A Dafny 4.11 model of the decision logic in `tools/` and `evals/install/`, with proofs of what that logic promises.
`dafny verify dfyconfig.toml` checks all of it.

| part | modules | what is modelled |
|---|---|---|
| machine run lock | `RunLockRecord`, `RunLockProtocol`, `RunLockSafety`, `RunLockTheorems`, `RunLockCleanup`, `RunLockLimits`, `RunLockMethods` | any number of runs, on any number of hosts, as steps on one lock file: the guard, the atomic create, the judgement and break of a dead holder's record, release, the cleanup mark, `take` and `give_back`, checkouts that create the file empty, readers from before the cleanup field, exits and pid reuse at any point; and `acquire`, `release` and `retain_for_cleanup` as methods whose every action is one of these steps |
| redactor and log | `RedactionStream`, `Escapes`, `Redaction`, `RedactionSafety`, `RedactionChunks`, `RedactionExactness`, `Utf8`, `BoundedLog` | the buffer cut at the leftmost longest match, the escape tables, the byte-limited log |
| score gate | `SchemaMeasure`, `SchemaTraversal`, `ScoreArithmetic`, `ScoreGate`, `SavedReport`, `ReportSafety` | the schema traversal, exact rounding and rollups, the confirmation procedure, the report and its check |
| review loop | `StalledWork`, `FlatRounds`, `ReviewLoop`, `AgentJob`, `Porcelain`, `ArgvBatches` | outstanding work from round to round, the exits of the loop, one Windows launch under exceptions, the status parser, the argv splitter |
| logins and sources | `LoginWriteBack`, `SourceDigest` | what comes back from a container and what is given up after it, the bytes a source tree is hashed as |

The answers of the operating system, of git, of Docker and of the models are parameters or free choices (`*`), restricted
only where the code relies on a guarantee: a create or a rename is atomic, the guard dies with its process, a probe of a
pid errs only towards "running", a new process of a Windows job is a member of it.

## What turned out false, and when it holds

* Mutual exclusion. The text beside `_break` (`tools/run_lock.py:752-764`) says the record removed is the one that was
  judged. Release and the cleanup mark happen outside the guard, so a holder can give its record up, or mark it, and exit
  between a contender's read and its probe of the pid; the contender then removes whatever is there.
  `RunLockLimits.ExclusionExactly`: at most one holder in every run if and only if no such late exit happens, or neither
  older checkouts nor other hosts (whose guard is not shared) take part. `RunLockTheorems.ExclusionRunByRun`: in any
  world, a run in which every break finds nothing or the lock it condemned has at most one holder.
* The cleanup mark. `RunLockCleanup.MarkSurvivesExactly`: in any world, only an operator clears a marked record from here
  on if and only if holders do not exit inside a contender's window, or no live run goes by an earlier reading of the
  file: none is about to unlink, rewrite or break it, and none is judging an unmarked record of another process.
* Streaming equals one-shot redaction. `RedactionExactness.ChunkingExactly`: for every chunking of every text in which no
  form of a secret begins or ends inside an escape, if and only if no spelling of a secret holds another one that ends
  before it does (one that is a proper suffix does no harm). Other escapes in the text are of no account.
  `EnoughIgnoringCase` and `NecessaryAsItStands` compare the table of variants directly. The texts left out do differ:
  `CutFormsDiffer` gives one.
* The review loop follows stalled work. `StalledWork.ObjectIsFollowedExactly`: an outstanding object that is dirty at some
  path after a round is outstanding there if and only if the round was kept uncommitted, some followed name vanished, some
  followed name is that path, or a first landing wrote into it. So the one outstanding object, moved under its own inode
  by a round that commits, is lost while its old name stays dirty (`MoveIsFollowedExactly`).
  `StalledWork.PathStaysExactly` and `StayIsFollowedExactly`: work left where it is can be lost as well, to a copy record
  that names it as the source of another path.
* The operator's uncommitted files. A round that commits something and writes over such a file where it stands is not
  noticed, and the run can end clean: `ReviewLoop.OverwriteEndsClean`. `StalledWork.OverwriteUnnoticedExactly` says
  exactly when content that is gone is neither reported nor outstanding; `ReviewLoop.NoFileLeavesWithItsContent`: in a run
  that ends neither stalled nor with an error this is the only way in which content can be gone.
* The machine is given up only when the container is gone. `LoginWriteBack.Machine.Run`: if and only if nothing escapes
  from the readback, from its announcement or from the removal. What escapes, although the text of `write_back`
  (`tools/loop_in_container.py:828-857`) says it never raises, because it catches `OSError` only: an interruption or
  another error, a stored login that is no UTF-8, a copy nested too deeply for the JSON parser, a copy that cannot be
  encoded. The announcement (`tools/loop_in_container.py:1348-1350`) escapes if standard error is gone.

## Model

| member | source | states |
|---|---|---|
| RunLockRecord.StaleReason | tools/run_lock.py:351-400 | a record may be broken exactly when it is readable, unmarked, of this version and this machine, and its pid is unusable or not running |
| RunLockTheorems.AtMostOneHolder | tools/run_lock.py:555-630 | in every reachable state of any number of runs at most one holder whose recorded process lives holds the machine, and the file is its own |
| RunLockTheorems.OnlyTheHolderTouchesItsFile | tools/run_lock.py:638-764 | while a live holder holds, the only steps that change the file are that run's own release, mark, give-back or first write |
| RunLockTheorems.StepInv | tools/run_lock.py:439-764 | every step of every process keeps the protocol's invariant, in every world, as long as a break removes the lock it condemned or nothing |
| RunLockTheorems.ExclusionRunByRun | tools/run_lock.py:555-764 | in every world, older checkouts, other hosts and late exits included, a run whose breaks find nothing or the lock they condemned has at most one holder |
| RunLockCleanup.MarkSurvivesStep | tools/run_lock.py:128-156 | in every world, a mark no live run threatens survives every step but the operator's, and no step brings a threat about: neither a current reader nor one that breaks dead version-1 records |
| RunLockCleanup.MarkSurvivesExactly | tools/run_lock.py:580-764 | in every world, only the operator clears a mark over all further runs exactly when no live run goes by an earlier reading of the file, or no holder exits inside a contender's window |
| RunLockCleanup.MarkedMachineStaysClosed | tools/run_lock.py:653-707 | from a mark that is safe in this sense on, over any run without the operator, the file stays and nobody holds the machine |
| RunLockTheorems.DeadHolderIsReplaced | tools/run_lock.py:606-624 | a run that finds a provably dead holder's record takes the machine in one pass under the guard |
| RunLockLimits.ExclusionExactly | tools/run_lock.py:580-764 | mutual exclusion over all runs holds exactly when no holder exits between a read and a probe, or no lock can appear outside the guard |
| RunLockLimits.CleanupExactly | tools/run_lock.py:653-764 | in every reachable state no step but the operator's changes a marked record, exactly in the worlds in which no holder exits between a read and a probe |
| RunLockMethods.RunLock.Create | tools/run_lock.py:709-750 | create succeeds exactly when the run ends up holding; otherwise it goes on to read, or after a break to try again |
| RunLockMethods.RunLock.TryOnce | tools/run_lock.py:580-625 | one pass under the guard: held, refused (only when not waiting, or by a marked record, and always by another run's marked record that was read), or back outside |
| RunLockMethods.RunLock.Acquire | tools/run_lock.py:555-630 | whatever others do in between, a successful acquire leaves this run the only live holder and the file its own; the first mark of another run that is read ends the queueing with a refusal |
| RunLockMethods.RunLock.Release | tools/run_lock.py:638-651 | release ends the run's hold by protocol steps only: the file is gone if it was readable and the run's own, and untouched if not; nothing happens for a run that does not hold |
| RunLockMethods.RunLock.RetainForCleanup | tools/run_lock.py:653-707 | the mark ends the run's hold by protocol steps only: the file is the run's record with the mark if it was readable, the run's own and could be rewritten, untouched if it was not the run's own, and in exclusive worlds still the run's whatever happened |
| Escapes.SubAt | evals/install/redaction.py:17-24 | substituting over escapes changes exactly the characters that some escape covers |
| Escapes.WindowIsCanonical | evals/install/redaction.py:23-24 | a window no escape lies across has the same canonical form whatever surrounds it |
| Redaction.LeftmostIsFirst | evals/install/redaction.py:82-103 | the match is one of the tables' occurrences, and no occurrence begins before it or is longer at its place |
| Redaction.SecretRedactor.Select | evals/install/redaction.py:95-102 | the loop over the forms keeps a match that no occurrence of any of them comes before |
| Redaction.SecretRedactor.EarliestMatch | evals/install/redaction.py:82-103 | the three loops together find exactly the leftmost longest match |
| Redaction.SecretRedactor.CutOutMatches | evals/install/redaction.py:111-114 | the loop writes markers for exactly the matches of the buffer and leaves the rest |
| Redaction.SecretRedactor.Feed | evals/install/redaction.py:105-124 | a feed writes and keeps what the stream's own definition says, for every buffer and text |
| Redaction.SecretRedactor.Redact | evals/install/redaction.py:129-132 | one-shot redaction is refused exactly while text is buffered |
| RedactionStream.StreamedKeepsText | evals/install/redaction.py:105-127 | for every matcher and chunking, putting back the text cut out for each marker gives the input exactly |
| RedactionStream.StreamedHides | evals/install/redaction.py:105-127 | for every matcher that reports only stretches of a given kind, and every chunking, each text cut out is a stretch of that kind at its place in the input |
| RedactionStream.BufferStaysShort | evals/install/redaction.py:116-124 | what is held back is shorter than the longest variant, and nothing is at the end |
| RedactionStream.StreamedIsClean | evals/install/redaction.py:105-127 | for every chunking, no text between two markers contains a stretch the matcher catches |
| RedactionSafety.NothingGetsThrough | evals/install/redaction.py:82-127 | for every chunking of every text no secret, literal or encoded in any case, is left between two markers, putting back what the markers stand for gives the text, and each marker stands for an occurrence of a secret's form |
| RedactionSafety.MarkersStandForVariants | evals/install/redaction.py:82-127 | whatever is cut out is, but for the case of letters, one of the variants |
| RedactionSafety.NoVariantInOutput | evals/install/redaction.py:82-127 | no literal variant occurs in any text written between two markers |
| RedactionChunks.SameSpans | evals/install/redaction.py:105-132 | where no stretch ends inside another, streaming hides the same positions as one-shot redaction, for any exact matcher |
| RedactionExactness.ChunkingIsInvisible | evals/install/redaction.py:105-136 | with no secret ending inside another, every chunking of a text in which escapes cut no form hides and writes what one-shot redaction does |
| RedactionExactness.NestedIsVisible | evals/install/redaction.py:105-132 | a secret ending inside a spelling of another makes one chunking of that spelling write something else |
| RedactionExactness.ChunkingExactly | evals/install/redaction.py:105-136 | for every table of secrets: streaming and one-shot output agree for every text in which escapes cut no form, and every chunking of it, exactly when no spelling of a secret holds another that ends before it does |
| RedactionExactness.EnoughIgnoringCase | evals/install/redaction.py:17-24 | it is enough that no variant ends inside another when case is ignored |
| RedactionExactness.NecessaryAsItStands | evals/install/redaction.py:17-24 | it is necessary that no variant ends inside another one whose forms no escape cuts |
| RedactionExactness.CutFormsDiffer | evals/install/redaction.py:17-24 | a form that begins inside an escape is hidden or not by where the chunks end: a secret and a text that show it |
| Utf8.RoundTrip | evals/install/redaction.py:161-165 | decoding an encoding gives the text back |
| Utf8.CutDecodesToFitting | evals/install/redaction.py:164-165 | cutting an encoding anywhere and ignoring the broken character leaves the longest prefix that fits |
| Utf8.FittingIsLongest | evals/install/redaction.py:158-165 | a prefix of the text fits the limit exactly when it is no longer than the fitting one |
| BoundedLog.Utf8Prefix | evals/install/redaction.py:158-165 | the prefix is the longest that fits the limit, with its encoded length |
| BoundedLog.RedactingLogWriter.Write | evals/install/redaction.py:190-200 | after every write the log is the bounded form of the whole stream so far: the marker comes at most once, when something is cut, and nothing follows it |
| BoundedLog.BoundedIsLongest | evals/install/redaction.py:190-200 | what stands before the marker is the longest prefix whose encoding fits, and the marker is there exactly when something is missing |
| BoundedLog.RunLogged | evals/install/runner.py:665-692 | the log of a process is the bounded form of its redacted output, whatever pieces the output arrives in; a negative limit is refused |
| SchemaMeasure.Measure | tools/tool_definition_score.py:322-373 | the traversal ends on every JSON schema, references to itself included, and the depth measured at level L is at most 11 - L |
| SchemaMeasure.Invocation | tools/tool_definition_score.py:376-380 | a root schema is at most ten deep |
| SchemaTraversal.Traverse | tools/tool_definition_score.py:322-336 | the loop over references and the recursion compute the measure and end |
| SchemaTraversal.TraverseRequired | tools/tool_definition_score.py:341-351 | the loop over the required names computes their measure |
| SchemaTraversal.TraverseEach | tools/tool_definition_score.py:352-372 | the loops over branches compute each branch's measure |
| SchemaTraversal.RequiredFieldsCoverNames | tools/tool_definition_score.py:342-352 | a schema without a reference at its root has at least as many required fields as it requires names |
| SchemaTraversal.RequiringMoreCostsMore | tools/tool_definition_score.py:322-380 | one more required name raises the required-field count by at least one and the invocation cost by at least one, even where subschemas refer back to the root |
| ScoreArithmetic.Round1IsNearest | tools/tool_definition_score.py:165-170 | rounding gives the one tenth that is nearest, the upper one in the middle |
| ScoreArithmetic.MedianOfThree | tools/tool_definition_score.py:913-916 | the median of three is one of them, with two at most and two at least as great |
| ScoreArithmetic.MedianIsMonotone | tools/tool_definition_score.py:913-916 | raising values never lowers the median |
| ScoreGate.ScoresAreNearest | tools/tool_definition_score.py:165-198 | every score is the nearest tenth of the mean the published weights give, rounded once and half up |
| ScoreGate.TdqsOfValid | tools/tool_definition_score.py:173-181 | valid scores give 1 to 5, and tier A exactly from a weighted sum of 345 on |
| ScoreGate.QualityIsBetween | tools/tool_definition_score.py:184-190 | description quality lies between the minimum and the rounded mean |
| ScoreGate.MinTool | tools/tool_definition_score.py:209 | the minimum tool is among the names, and none precedes it by score and name |
| ScoreGate.MinimumIsOfMinTool | tools/tool_definition_score.py:208-218 | the minimum score is the score of the minimum tool |
| ScoreGate.RollupsAreMonotone | tools/tool_definition_score.py:201-225 | raising tool scores or coherence lowers none of the server-level numbers |
| ScoreGate.Confirm | tools/tool_definition_score.py:924-945 | the procedure scores one pair, or three after a drop, and always reaches a decision on a legal number of pairs |
| ScoreGate.BetterHeadsNeverBlock | tools/tool_definition_score.py:913-945 | better heads and no better bases never turn pass into block |
| ReportSafety.RaisingTheHeadNeverBlocks | tools/tool_definition_score.py:855-945 | raising any head dimension score, or lowering any base one, in any potential pair never turns a passing comparison into a blocking one, through caps, rounding, rollups and medians |
| ReportSafety.ComparedIsAccepted | tools/tool_definition_score.py:1046-1067 | every report a comparison builds is accepted for the same exports and record |
| ReportSafety.SideIsAcceptedExactly | tools/tool_definition_score.py:1178-1221 | a side is accepted exactly when set, versions, tools, coherence and rollups all follow from its dimension scores |
| ReportSafety.AcceptedIsComputed | tools/tool_definition_score.py:1224-1251 | an accepted report with pairs says the decision, and the exit code, its dimension scores lead to |
| ReportSafety.SameDimensionsSameDecision | tools/tool_definition_score.py:1178-1251 | accepted reports with the same dimension scores have the same rollups and the same decision |
| StalledWork.WorkStaysOutstanding | tools/agent_review_loop.py:3318-3396 | outstanding work that stays, is renamed, or moves away from a name that is no longer dirty to a new name, its own inode or a rewritten file is outstanding after the round |
| StalledWork.CleanRoundStaysClean | tools/agent_review_loop.py:3318-3417 | with nothing outstanding before, nothing is after exactly when the round kept no new dirt and, if it declined, rewrote nothing |
| StalledWork.ObjectIsFollowedExactly | tools/agent_review_loop.py:3324-3409 | for every round and every set of outstanding paths: an outstanding object, by inode, is outstanding at the dirty path it is at exactly when the round was kept, some followed name vanished, some followed name is that path, or a first landing wrote into it |
| StalledWork.MoveIsFollowedExactly | tools/agent_review_loop.py:3324-3367 | the only outstanding object, moved under its inode by a round that commits and reports no rename, is followed exactly when its old name is not dirty any more |
| StalledWork.PathStaysExactly | tools/agent_review_loop.py:3324-3409 | for every round and every set of outstanding paths: a path that is still dirty stays outstanding exactly when some followed name is it, or it is carried for its object or as suspect |
| StalledWork.StayIsFollowedExactly | tools/agent_review_loop.py:3324-3325 | a round that commits and loses no followed name keeps an outstanding dirty path exactly when some followed name is it |
| StalledWork.OverwriteUnnoticedExactly | tools/agent_review_loop.py:3343-3439 | content of the operator's that is gone is neither reported nor outstanding exactly when its path was overwritten where it stands, by a round that committed or added a line, no followed name vanished, none is that path, and no stalled object is in it that the round left uncommitted |
| ReviewLoop.Loop | tools/agent_review_loop.py:3183-3508 | the loop ends with the exit, the outstanding paths and the findings that the rounds lead to, for every sequence of answers |
| ReviewLoop.NoCleanExitOverLeftWork | tools/agent_review_loop.py:3235-3492 | a run in which a round leaves work that later rounds only move in followed ways never exits clean |
| ReviewLoop.ExitsAreExplained | tools/agent_review_loop.py:3436-3513 | what every exit says: clean only on a clean verdict with nothing outstanding, stalled only over destroyed, uncommitted or outstanding work, no progress only after that many flat reviews, exhausted only after the last round |
| ReviewLoop.NoFileLeavesWithItsContent | tools/agent_review_loop.py:1702-1777 | in a run that ends neither stalled nor failed, whatever is gone of a file the operator had dirty was overwritten in place in a path still dirty |
| ReviewLoop.OverwriteEndsClean | tools/agent_review_loop.py:3346-3439 | a round that commits and writes over the operator's file ends the run clean with the content gone, whatever the settings |
| ReviewLoop.LeftAloneIsNeverOutstanding | tools/agent_review_loop.py:3318-3417 | a file that every round leaves alone is outstanding at no end of a run, whatever the rounds do elsewhere |
| ReviewLoop.AtMostSoManyReviews | tools/agent_review_loop.py:3495-3506 | with counted reviews, at most (c + 1) * k + 1 of them are made, c the first count, however many rounds are allowed |
| FlatRounds.RoundsWithoutProgress | tools/agent_review_loop.py:3044-3066 | the loop counts the known findings since the first minimum |
| FlatRounds.FirstMinimum | tools/agent_review_loop.py:3059-3066 | every count before it is greater and none after it is smaller |
| FlatRounds.ProgressIsPaidFor | tools/agent_review_loop.py:3044-3066 | as long as no k reviews in a row were flat, every k reviews brought the fewest findings down by one |
| FlatRounds.StaircaseIsNeverFlat | tools/agent_review_loop.py:3044-3066 | the bound is met: (c + 1) * k counts from c down to 0 contain no k flat reviews in a row |
| AgentJob.Kernel.Evolve | tools/agent_review_loop.py:526-568 | a process that never ran has no descendants, and the descendants of members are members |
| AgentJob.AgentJob.Track | tools/agent_review_loop.py:570-671 | wherever an exception strikes, a process that can have run is recorded as a member of the job; nothing is resumed outside one |
| AgentJob.ConfirmJobEmpty | tools/agent_review_loop.py:790-810 | returns exactly on a count of zero after terminating, and then no member lives |
| AgentJob.AgentJob.TerminateTree | tools/agent_review_loop.py:813-862 | a return means no process of the launch lives; the lent handle is not closed |
| AgentJob.AgentJob.Release | tools/agent_review_loop.py:674-777 | a return means no process of the launch lives, every other end is CleanupUnconfirmed; what is asked of the kernel is fixed by the record, and a second call does nothing |
| AgentJob.RunAgent | tools/agent_review_loop.py:1055-1133 | whatever is raised wherever, the processes are confirmed gone unless CleanupUnconfirmed is raised, and a recorded handle is closed exactly once |
| Porcelain.PorcelainZRecords | tools/agent_review_loop.py:1241-1277 | the loop over the fields computes the paths and the moves, malformed output included |
| Porcelain.ParseInvertsPrint | tools/agent_review_loop.py:1241-1277 | parsing what git prints gives exactly the destinations and the moves, for every list of records |
| Porcelain.LastMoveCounts | tools/agent_review_loop.py:1268-1275 | a source maps to the destination of the last record that names it |
| Porcelain.MovesLandOnPaths | tools/agent_review_loop.py:1261-1276 | every move's destination is among the paths |
| ArgvBatches.ArgvBatches | tools/agent_review_loop.py:1459-1482 | the batches are the names in order, none empty, each within the budget or a single name, and no other such split has fewer |
| ArgvBatches.GreedyIsAhead | tools/agent_review_loop.py:1471-1482 | filling each run as far as it goes is never behind any other split |
| LoginWriteBack.OutcomeOf | evals/install/refresh_login.py:147-173 | an exception gets past a write-back exactly for a copy the parser gives up on, or a usable one that is interrupted or meets another error, a stored file that is no text, or an encoder that refuses it when it is to be written |
| LoginWriteBack.Machine.Replace | evals/install/refresh_login.py:158-173 | a usable copy replaces the stored login whole, with the previous one kept, or leaves it alone; a confirmed outcome means the stored login is the copy |
| LoginWriteBack.Machine.WriteBack | tools/loop_in_container.py:828-857 | only the login of this kind is touched, and replaced whole with the previous one kept, or left alone; a confirmed outcome means it is the copy |
| LoginWriteBack.Machine.CollectFromVolume | tools/loop_in_container.py:952-1005 | nothing unresolved means every returned login is its staged copy; exactly when something escapes, and exactly when there is something to announce, by the logins stored before |
| LoginWriteBack.Machine.Run | tools/loop_in_container.py:1332-1456 | the volume is removed only if this machine holds every staged copy; success leaves no volume and no container; the machine is given up only with the container gone, exactly when nothing escapes from the readback, its announcement or the removal |
| SourceDigest.SourceStream | evals/install/source.py:104-117 | the loop feeds each path and content behind its eight-byte length, and is refused exactly where a length does not fit |
| SourceDigest.DecodesStream | evals/install/source.py:107-117 | the files can be read back from the bytes |
| SourceDigest.StreamIdentifiesTree | evals/install/source.py:101-117 | two trees are fed as the same bytes exactly when they hold the same files |

## Left out

- Redaction.MakeTables: the JSON and URL encoders are parameters that give a non-empty form for a non-empty secret; the order of the tables, which the match does not depend on, is not modelled.
- RedactionSafety.NothingGetsThrough: an occurrence that matches only after the case of its escapes is folded and that begins or ends inside an escape of the surrounding text is not claimed to be hidden, because whether it is seen depends on where the buffer begins.
- RedactionExactness.ChunkingExactly: texts in which a form of a secret begins or ends inside an escape are outside the equivalence, for the same reason; `CutFormsDiffer` shows that the two outputs can differ there.
- RedactionSafety.MarkersStandForVariants: says of what was cut out that it is a variant but for the case of letters; that only the case of escapes can differ is in the occurrences `NothingGetsThrough` speaks of.
- RunLockTheorems.AtMostOneHolder: assumes that the job of `take` outlives its own `give_back` step, that the operator removes the file only while nobody uses the machine, and that an owner id is new.
- RunLockTheorems.ExclusionRunByRun: one direction; a break that removes another lock than the one it condemned may still do no harm, when that lock is a dead one.
- RunLockMethods.RunLock.Acquire: the time between polls and the wait for the guard are free choices, and the number of polls is a parameter; what is announced is not modelled.
- RunLockMethods.RunLock.Release: `run_holding`, its signals and its child process are not modelled.
- RunLockMethods.RunLock.RetainForCleanup: the staging file of the rewrite is one step that either happens or does not.
- StalledWork.WorkStaysOutstanding: copy records, and work moved away while its old name is refilled, are not followed by the code; the exact conditions beside it say so.
- ReviewLoop.Loop: prompts, salvage commits whose commit git refuses, dry runs and the summary are not modelled.
- AgentJob.AgentJob.Release: the POSIX process group, and an exception inside the release itself, are not modelled; the instant between the kernel creating the process or the job and the record of it is outside the claim, as the source says.
- SchemaMeasure.Measure: Python's recursion limit is not modelled, and an array index in a `$ref` is decimal ASCII.
- SavedReport.CheckReport: JSON text, floats and the kinds of malformed fields are reduced to "missing or not of its kind"; hashes are functions about which nothing is assumed. A report that says "invalid" is accepted without a look at its pairs, as in the code.
- ScoreGate.RollupsOf: the prompts, the model calls, their retries, the causes and the Markdown of a report are not modelled.
- LoginWriteBack.Machine.Run: a file system that reports success and loses data, file modes, the translation of line ends and the copies of one kind reached under two paths are not modelled; neither is an interruption between two statements that touch no file and start no process.
- SourceDigest.StreamIdentifiesTree: the walk of the tree and its ignored names are not modelled; paths are text without unpaired surrogates, and SHA-256 itself is not modelled.
- ArgvBatches.ArgvBatches: a name that cannot be encoded is not modelled.
- `redact_value`, the matrix, the console rendering, the bench hardware discovery and the version sweeps would only add easy members.
