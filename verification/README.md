# Infera's agent system, modelled in Dafny

The project models the parts of `agent_sys` on which the rest of the system leans without
looking: the digest that names a handoff, the store that publishes it, the buffer that keeps
failure reports, the attempt that carries a task, the loop that drives an agent, the log of
started servers, the scope a mirrored deletion may reach, the reverse index over closures and
the lineage check of kernel versions. It proves what the code promises of them for every
input, every interleaving or every history.

`dafny verify dfyconfig.toml` checks all of it.

| file | modules | models |
|---|---|---|
| `Digest.dfy` | `TreeDigest` | `agent_sys/handoff/digest.py`: the tree digest |
| `Store.dfy` | `HandoffStore` | `agent_sys/handoff/store.py`: `allocate`, `put`, `seal` and the readers, one filesystem call per step |
| `Integrity.dfy` | `StoreIntegrity` | `copy_out`, on top of the two above |
| `StoreNames.dfy` | `StoreNames` | labels, handoff directories and version directories |
| `Buffer.dfy` | `EventBuffer`, `BufferRuns` | `agent_sys/monitor/buffer.py`: the unplanned-event buffer, and its histories |
| `Threads.dfy` | `ThreadOwnership` | `agent_sys/agent/runner.py`: which thread carries an attempt |
| `Attempt.dfy` | `AttemptLog`, `TaskAttempts` | `agent_sys/agent/runner.py`: the phases and the two seals |
| `Executor.dfy` | `ExecutorRuns`, `ExecutorLoop` | `agent_sys/agent/backend.py`: the inbox-driven loop as a machine of single reads and writes, and its code |
| `ServerLog.dfy` | `ServerLog` | `agent_sys/env_mgr/servers.py`: the crash-tolerant append log |
| `PathScope.dfy` | `PathScope` | `agent_sys/env_mgr/sync.py`: containment, deletion scope, path mapping |
| `ClosureIndex.dfy` | `ClosureIndex` | `agent_sys/closure/query.py`: the reverse index |
| `Lineage.dfy` | `VersionLineage` | `agent_sys/kernel_registry/registry.py`: the version-lineage check |
| `Order.dfy`, `Text.dfy`, `Options.dfy` | `Order`, `Text`, `Options` | Python's `sorted`, `split` and `None`, shared by the others |

## How to read it

*Hashing.* `sha256` is an arbitrary function `H` from byte strings to 32 bytes. By counting,
any such function has collisions somewhere, so "or a collision exists" would say nothing.
`Collide` asks for more: two different byte strings, one hashed while walking each of the two
trees, with equal hashes.

*The store.* A state is the directory tree of one handoff and the program counter of every
call; an action is one filesystem call, and any call may die between two of them or in the
middle of a file write. `mkdir` and `rename` follow POSIX.1. The agent may write into a
granted `content/` at any moment, after publication too: `touched` records that, `hashed`
records the tree each manifest was computed from.

*Attempts.* What lies outside the class is arbitrary: the statuses a thread finds and every answer
of the body, the store, the gate, the validators and the monitor, an exception among them, are
parameters, and a `halt` may land before any look at `_halted`. A thread is observed for as many
phases and passes as the script has; since the script is any, every finite prefix of every run
is covered. What the attempt does to the world is a log, and its promises are stated of the log
and of the script.

*The executor.* `ExecutorRuns` is a machine: one event is one read or write of the thread in
`mainloop`, or of a thread beside it. `start_async` and `stop` are taken apart into their
writes, and those of `stop` may come at any moment, since its look at `_looping` may be stale.
Theorems are about every sequence of events. `ExecutorLoop` is the code, with other threads
between any two steps, and every state it reaches is one that a run of the machine reaches.

## What the proofs found

Where the code and its comments disagree the model follows the code.

* `digest.py:93-94` calls the length prefix load-bearing. `BodyInjective` shows that the body
  alone already determines the entry list: modes have six bytes, names hold no NUL and digests
  have 32 bytes.
* `seal` computes the digest outside its `try` (`store.py:534`), so a device node, FIFO or
  socket in the content escapes as `Malformed`, although the docstring says that only
  `NotSealable` is raised (`SpecialFileRaises`). `SealDecidesExactly` states when: exactly for
  content that is not empty, is admitted and holds a special file.
* `allocate` can raise. A `put` that guessed the same number may rename its staging directory
  onto the still empty `v<N>/`, and then `mkdir content/` fails (`RenameBetweenMkdirs`). It
  raises exactly when that has happened (`AllocateRaisesExactly`), and no number is handed out
  twice even so (`NumbersAreUnique`).
* `_seal_model_versions` lets go of the slots before it closes them, so a `persist` that raises
  leaves the later ones GENERATING (`OneSlotLeftOpen`) and the next dispatch raises
  (`Redispatch`). All are closed exactly when no `persist` but the last raises
  (`AllSealedExactly`).
* `begin` after an outside `halt` can give an attempt two running threads
  (`BeginAfterHaltRunsTwo`); `BeginIsSafeExactly` states when it cannot. The callers avoid it,
  since `Runner.stop` drops the attempt.
* `carry_on` may report a wake that no thread acts on: the thread may be on its way out
  (`CarryOnMayWakeNobody`), the direction of the race that `runner.py:487` says is not closed,
  or inside the last phase of the attempt (`LastPhaseDropsWake`). Short of a `halt`, the wake is
  acted on exactly when the newest thread is neither on its way out nor in a phase that then
  ends it (`WakeIsActedOnExactly`).
* `begin` clears the event, so that a wake from before it is not left over
  (`BeginForgetsWakes`); a `release` that is late with its own `set` undoes that, and the new
  thread passes its park although nobody woke it (`LateReleaseWakes`).
* `_enqueue_instruction` names one window in which an accepted instruction is lost, the two
  lines of the `finally` (`backend.py:544-550`). The window opens earlier, at the loop's last
  look into the inbox, while `_looping` is still true (`LostWhileLooping`). `LostExactly`
  states it: after a `break` an operation is left exactly when it was put after that look.
* A second `start_async` is described as a second submission on the same agent. Landing after
  the loop's last look it is left in the inbox, and `wait` answers with the status of the
  submission before (`SubmissionLeft`).
* `_settle` repairs a status that is not terminal and keeps a result that is not, so `wait` can
  return one (`UnfinishedAnswer`). It does exactly when `_run` returned that status and no
  result was written or cleared after it (`WaitIsTerminalExactly`).
* `done` for a task that is not out breaks the buffer's invariant exactly when the task is
  queued (`DoneKeepsInvExactly`).
* `_under` is described as containment by path component. The root `.` is an exception: it
  holds itself and nothing below it (`DotHoldsNothing`). `UnderIsContainment` shows that this
  is the only one.
* `_under` is also described as keeping `..` from climbing out. It does, except under a relative
  root made of `..` alone (`RelativeRootClimbs`, `RootHoldsExactly`).
* `match` strips the local root `/` to the empty string, which `relpath` reads as the current
  directory; the far path then leaves the far root (`RootMappingEscapes`).
  `FarPathInsideExactly` states when a far path stays inside its far root, and
  `DeletionStaysInScope` when it stays inside the declared ones.
* A record whose encoding reached the server log whole, but without its newline, is returned by
  `records` (`AppendReads`).

## Model

| member | source | states |
|---|---|---|
| `TreeDigest.BodyInjective` | agent_sys/handoff/digest.py:92 | a directory body parses in one way only: equal bodies come from equal entry lists |
| `TreeDigest.DirInputInjective` | agent_sys/handoff/digest.py:92-95 | the same for the whole hash input, length prefix included |
| `TreeDigest.InputReads` | agent_sys/handoff/digest.py:92-95 | the whole hash input reads back, in the documented format, as the rows it was made of: the word `tree`, the decimal length of what follows, a NUL, then mode, blank, name, NUL and 32 bytes for each |
| `TreeDigest.ModeMeans` | agent_sys/handoff/digest.py:77-90 | the six digits of a mode read as octal are the `st_mode` of a regular file, a link or a directory, and a file has its executable bit exactly when the owner may execute it |
| `TreeDigest.DigestReads` | agent_sys/handoff/digest.py:73-95 | what is hashed for a directory reads as one row for each entry and no other, names ascending bytewise, each with the mode and the digest of what it names |
| `Order.LessMeans` | agent_sys/handoff/digest.py:91 | the order of the rows: at the first place where two names differ the smaller byte comes first, or the shorter name |
| `TreeDigest.DigestIgnoresOrder` | agent_sys/handoff/digest.py:73-95 | trees with the same names and contents have the same mode and digest, whatever order each level was enumerated in |
| `TreeDigest.DigestInjective` | agent_sys/handoff/digest.py:73-95 | equal mode and digest force equal trees (names, exec bits, link texts, file bytes, empty directories) or a collision between strings hashed in the two walks |
| `TreeDigest.DigestIsIdentity` | agent_sys/handoff/digest.py:45-95 | both directions for directories: equal trees give equal digests, and equal digests give equal trees barring such a collision |
| `TreeDigest.FileDigest` | agent_sys/handoff/digest.py:37-42 | feeding the hash chunk by chunk is hashing the whole content |
| `TreeDigest.ScanDigest` | agent_sys/handoff/digest.py:45-95 | the walk computes the digest that `DigestReads` reads back, and raises exactly when a special file lies anywhere below |
| `HandoffStore.Successor` | agent_sys/handoff/store.py:614-623 | a guess exceeds every directory seen, holes included, and is at most one above the highest |
| `HandoffStore.StepKeepsInv` | agent_sys/handoff/store.py:426-437 | every filesystem step of every call, crash or agent write keeps the protocol invariant: what each call relies on, that no two calls hold one thing, and that every visible manifest vouches for its version |
| `HandoffStore.RunKeepsInv` | agent_sys/handoff/store.py:503-612 | so does every interleaving |
| `HandoffStore.NumbersAreUnique` | agent_sys/handoff/store.py:426-437 | in every interleaving no two `allocate` or `put` calls return one number, and each returned number exceeds every version directory present when the call guessed |
| `HandoffStore.AllocateAlone` | agent_sys/handoff/store.py:426-437 | a call left alone returns one above the highest version directory, holes included, and leaves there an empty content, a claim directory and no manifest, and everything else as it was |
| `HandoffStore.PutAlone` | agent_sys/handoff/store.py:585-623 | a `put` left alone publishes its content with a whole manifest and an empty verdict file under the first number above the highest version directory whose staging name is free, returns that number and leaves everything else as it was |
| `HandoffStore.PutRaises` | agent_sys/handoff/store.py:596-611 | a `put` whose content cannot be hashed raises and leaves no version and no staging directory |
| `HandoffStore.VisibleIsComplete` | agent_sys/handoff/store.py:509-539 | a version a reader can see has its content, its verdict file and a whole manifest carrying the digest of the tree hashed for it, in every run with crashes |
| `HandoffStore.StepPreserves` | agent_sys/handoff/store.py:585-612 | no step replaces, unpublishes or renumbers a published version; only a recorded agent write changes its content |
| `HandoffStore.RunPreserves` | agent_sys/handoff/store.py:503-612 | nor does any run |
| `HandoffStore.Ascend` | agent_sys/handoff/store.py:298-309 | the listing is strictly ascending and has exactly the members of the set |
| `HandoffStore.ListingOnlyGrows` | agent_sys/handoff/store.py:233-284 | across any run the ascending list of published versions only gains members, each keeps its manifest, and `latest` never goes back |
| `HandoffStore.LatestIsHighest` | agent_sys/handoff/store.py:233-284 | the list has exactly the versions that carry a manifest, ascending, and `latest` is the highest of them, `None` exactly when there is none |
| `HandoffStore.AllocateRaisesExactly` | agent_sys/handoff/store.py:428-436 | in every run an `allocate` that has made its directory raises at `mkdir content/` if and only if a `put` has published that number meanwhile, and never at the last `mkdir` |
| `HandoffStore.RenameBetweenMkdirs` | agent_sys/handoff/store.py:428-436 | a run in which that happens: the `put` returns the number, the `allocate` raises |
| `StoreIntegrity.CopyIsWhatWasPublished` | agent_sys/handoff/store.py:337-372 | when `copy_out` returns, however long after publication, the copy equals the tree hashed when the version was published, or the two walks hashed a collision |
| `StoreIntegrity.FaithfulCopyReturns` | agent_sys/handoff/store.py:356-372 | and it does return for a faithful copy of a version not written to since |
| `StoreIntegrity.CopyOutExactly` | agent_sys/handoff/store.py:337-372 | in every run: `copy_out` returns the copy if and only if the version is published and the copy, free of special files, has the digest of the tree hashed at publication; each way to raise likewise |
| `StoreIntegrity.SealDecidesExactly` | agent_sys/handoff/store.py:509-534 | in every run `seal` goes on to publish, with the digest of what lies there, if and only if the content is not empty, is admitted and holds no special file; it refuses if and only if the content is empty or not admitted; it raises for the rest |
| `StoreIntegrity.SealPublishes` | agent_sys/handoff/store.py:503-539 | in every run a `seal` left alone with such content returns with the version published under the digest of that content |
| `HandoffStore.SealFinishes` | agent_sys/handoff/store.py:534-539 | from the hash on, a `seal` left alone writes an empty verdict file and the manifest of that hash, leaves the content as it lies and returns with the version published |
| `StoreIntegrity.SpecialFileRaises` | agent_sys/handoff/store.py:524-534 | a run in which an agent leaves a FIFO in its grant and `seal` raises, the version staying unpublished |
| `StoreNames.SlugIsLabel` | agent_sys/handoff/store.py:106-122 | a slug is at most 40 safe characters with no `.`, no `-` at an end and no `--`; any such label is its own slug, so slugging is idempotent |
| `StoreNames.SlugIsWords` | agent_sys/handoff/store.py:106-122 | a slug is the words of the text, joined by single hyphens, cut at 40 characters and not left ending in a hyphen |
| `StoreNames.Slug` | agent_sys/handoff/store.py:106-122 | the loop computes that slug |
| `StoreNames.IsOfLastField` | agent_sys/handoff/store.py:155-159 | the lookup's test on a name is equality of the name's last field with the id |
| `StoreNames.DirNameFields` | agent_sys/handoff/store.py:125-134 | the fields of a directory name between dots are the prefix, the slug if there is one, and the id |
| `StoreNames.HandoffDirExactly` | agent_sys/handoff/store.py:137-160 | the lookup gives the first entry that belongs to the handoff, and a new name exactly when none does |
| `StoreNames.DirectoryHasOneHandoff` | agent_sys/handoff/store.py:125-160 | a directory, labelled or bare, is recognised as belonging to the handoff it was named for and to no other |
| `StoreNames.OneDirectoryEach` | agent_sys/handoff/store.py:137-160 | over any sequence of lookups under any kinds, each handoff keeps one directory and existing ones stay |
| `StoreNames.LookupIgnoresLabel` | agent_sys/handoff/store.py:137-160 | a later lookup under another kind finds the directory made earlier |
| `StoreNames.ListerReadsNames` | agent_sys/handoff/store.py:298-309 | the lister recovers the number of every version directory and never sees a staging directory |
| `EventBuffer.ExceptionBuffer.constructor` | agent_sys/monitor/buffer.py:55-61 | a new buffer is empty and open, and the invariant holds |
| `EventBuffer.ExceptionBuffer.Add` | agent_sys/monitor/buffer.py:63-82 | refuses exactly after `shutdown`, merges, queues a task that is neither dirty nor out, keeps the invariant |
| `EventBuffer.ExceptionBuffer.Get` | agent_sys/monitor/buffer.py:84-99 | hands out the first queued task with all its records, keeps the invariant, and under it never an empty unit |
| `EventBuffer.ExceptionBuffer.Done` | agent_sys/monitor/buffer.py:101-107 | takes the task back, re-queues it if dirty, and keeps the invariant exactly when the task was out or clean |
| `EventBuffer.ExceptionBuffer.Shutdown` | agent_sys/monitor/buffer.py:109-124 | closes the buffer and changes nothing else |
| `EventBuffer.ExceptionBuffer.Drain` | agent_sys/monitor/buffer.py:84-124 | after `shutdown` alternating `get` and `done` delivers each queued task once, in order and with all its records, and leaves exactly the reports of tasks that others have out; with none out, nothing, after as many rounds as there were dirty tasks |
| `EventBuffer.GetKeepsInv` | agent_sys/monitor/buffer.py:95-99 | the invariant survives `get`; the unit is non-empty and its task was not out |
| `EventBuffer.DoneKeepsInvExactly` | agent_sys/monitor/buffer.py:101-107 | `done` keeps the invariant if and only if the task was out or not dirty |
| `BufferRuns.StepConserves` | agent_sys/monitor/buffer.py:63-107 | each step conserves every task's records |
| `BufferRuns.NoRecordLost` | agent_sys/monitor/buffer.py:63-107 | in every history, a task's records across all units followed by its pending ones are exactly the records accepted for it, in order |
| `BufferRuns.OneUnitPerTask` | agent_sys/monitor/buffer.py:50-107 | in every history with one `done` per unit, the queue is the dirty tasks not out, once each, records exist for exactly the dirty tasks, no unit is empty and no task is out twice |
| `BufferRuns.FirstInFirstOut` | agent_sys/monitor/buffer.py:76-99 | a task at position i is the (i+1)-th handed out, whatever else happens |
| `BufferRuns.OutUntilDone` | agent_sys/monitor/buffer.py:76-107 | until its own `done` a task that is out is neither queued nor handed out again, and its reports accumulate |
| `BufferRuns.ReportedWhileOut` | agent_sys/monitor/buffer.py:79-107 | a task reported while out is put at the end of the queue by its `done`, with the report pending |
| `ThreadOwnership.StepKeepsInv` | agent_sys/agent/runner.py:441-590 | every step keeps: only the newest thread can run another phase, and not after an own release |
| `ThreadOwnership.OneThreadPerAttempt` | agent_sys/agent/runner.py:467-590 | in every interleaving with `halt` final, at most one thread can still run a phase, and while one can a second `begin` raises |
| `ThreadOwnership.NeverReenters` | agent_sys/agent/runner.py:519-579 | in any run a thread on its way out never re-enters a loop, although `begin` clears the halt flag and wakes may come |
| `ThreadOwnership.BeginIsSafeExactly` | agent_sys/agent/runner.py:467-505 | `begin` leaves at most one capable thread if and only if no halted thread is still to notice |
| `ThreadOwnership.BeginAfterHaltRunsTwo` | agent_sys/agent/runner.py:467-590 | a run with `begin` after `halt` that ends with two threads inside a phase |
| `ThreadOwnership.WakeIsActedOnExactly` | agent_sys/agent/runner.py:519-567 | in every interleaving with `halt` final, once `carry_on` woke a running attempt and no `halt` follows and the thread gets its turns, the newest thread runs another phase if and only if it was not on its way out, nor in a phase that then ends it |
| `ThreadOwnership.HaltedNeverActs` | agent_sys/agent/runner.py:519-590 | from `halt` on and until another `begin` no thread enters a phase, whoever wakes it |
| `ThreadOwnership.HaltEnds` | agent_sys/agent/runner.py:519-590 | in every interleaving with `halt` final, once it has set the flag and the event, the newest thread is over after five of its own moves and enters no phase before |
| `ThreadOwnership.OnePhasePerWake` | agent_sys/agent/runner.py:519-579 | in any run a thread enters at most one phase for each time the event is set, beside those it had coming |
| `ThreadOwnership.BegunRunsOnce` | agent_sys/agent/runner.py:467-548 | a thread that `begin` starts runs one phase, and at most one more for each wake |
| `ThreadOwnership.BackToItsLoop` | agent_sys/agent/runner.py:519-749 | a thread that parked in the loop of `run` or in that of `_main` comes back to no other |
| `ThreadOwnership.BeginForgetsWakes` | agent_sys/agent/runner.py:467-505 | in every interleaving with `halt` final, a thread that `begin` starts, with none releasing beside it, comes past its first park only by a wake that comes after |
| `ThreadOwnership.LateReleaseWakes` | agent_sys/agent/runner.py:492-579 | a run in which a `release` sets the event after `begin` has cleared it, and the new thread passes its park unwoken |
| `ThreadOwnership.HeedsOn` | agent_sys/agent/runner.py:519-579 | no step but a `halt` keeps a woken thread from its next phase, and its own moves bring it nearer |
| `ThreadOwnership.BusyMoves` | agent_sys/agent/runner.py:600-627 | a thread woken inside a phase comes to the wake if and only if the phase goes on; otherwise it can run no phase any more |
| `ThreadOwnership.LastPhaseDropsWake` | agent_sys/agent/runner.py:611-627 | a run in which `carry_on` wakes a thread inside its last phase, which then leaves |
| `ThreadOwnership.CarryOnMayWakeNobody` | agent_sys/agent/runner.py:550-567 | a run after which `carry_on` sees a running attempt of which no thread will act on the wake |
| `AttemptLog.SealedAtMostOnce` | agent_sys/task_graph/models.py:153-212 | in a lawful log a slot's openings minus its seals are 1 while it is open and 0 otherwise |
| `AttemptLog.LawfulEarns` | agent_sys/agent/runner.py:932-988 | in a lawful log a slot sealed VALID was published by this attempt's own store seal, and output validation passed with only slot seals since |
| `AttemptLog.LawfulSeals` | agent_sys/agent/runner.py:611-627 | in a lawful log success is reported only after a passed validation and, unless a slot call raised, with every opened slot sealed |
| `AttemptLog.LawfulPoison` | agent_sys/agent/runner.py:725-749 | in a lawful log, once an output was published and the gate failed, no later seal is VALID |
| `AttemptLog.OverMeans` | agent_sys/agent/runner.py:519-548 | the events of a thread that came to its end are: work without an exception or a report of failure; then a phase that ended or a halt seen, or else an exception and right after it the report of failure; then the `finally`, and in it slot seals at most |
| `AttemptLog.TellsFailure` | agent_sys/agent/runner.py:1195-1224 | so a thread reports failure exactly when an exception left its phases |
| `TaskAttempts.AllSealedExactly` | agent_sys/agent/runner.py:969-988 | the closing loop closes every slot if and only if no `persist` before the last raises |
| `TaskAttempts.OneSlotLeftOpen` | agent_sys/agent/runner.py:969-988 | an attempt with two outputs whose first `persist` raises: the first slot is closed and the second stays GENERATING |
| `TaskAttempts.TaskAttempt.Redispatch` | agent_sys/agent/runner.py:904-988 | if a `persist` before the last slot raises, the next `_open_outputs` raises |
| `TaskAttempts.TaskAttempt.SealModelVersions` | agent_sys/agent/runner.py:932-988 | closes the slots in order, VALID exactly where validation passed and the attempt published, up to the first `persist` that raises; raises exactly if one does; the rest stay open; keeps the log lawful |
| `TaskAttempts.TaskAttempt.OpenSlot` | agent_sys/task_graph/models.py:186-206 | raises exactly for a slot that is missing or open, or whose `persist` raises, and otherwise opens it |
| `TaskAttempts.TaskAttempt.OpenOutputs` | agent_sys/agent/runner.py:904-930 | raises exactly when an output has no slot or an open one, is named twice, or has a `persist` that raises; otherwise every slot is open and held |
| `TaskAttempts.TaskAttempt.StoreSeal` | agent_sys/handoff/store.py:503-507 | raises exactly for a version already published or when the store itself raises; publishes exactly what the store takes, and never unpublishes |
| `TaskAttempts.TaskAttempt.SealOutputs` | agent_sys/agent/runner.py:1083-1101 | raises exactly when some pinned output is published already, by an earlier pass or earlier in the list, or the store raises for it; otherwise the attempt has published exactly the pinned outputs that the store took |
| `TaskAttempts.TaskAttempt.OnePass` | agent_sys/agent/runner.py:725-746 | a pass raises exactly when the body, the publication, the gate or the report does, and otherwise goes as the gate says; it goes on only with no poisoned pass behind it |
| `TaskAttempts.TaskAttempt.Passes` | agent_sys/agent/runner.py:725-749 | the loop comes through failed gates only, and ends as the first pass does that the gate did not fail, or by a `halt` |
| `TaskAttempts.TaskAttempt.MainPhase` | agent_sys/agent/runner.py:699-749 | with a `halt` landing at any moment, the phase raises only if the deployment, a slot or a pass after failed ones does; it ends well only after a passed gate, with the slots held and no poisoned pass; it parks only after failed gates; a non-leaf opens nothing |
| `TaskAttempts.TaskAttempt.Validation` | agent_sys/agent/runner.py:629-648 | raises or passes as the validators do, and a pass of the output phase is recorded before anything is sealed on it |
| `TaskAttempts.TaskAttempt.Close` | agent_sys/agent/runner.py:611-627 | raises exactly when the validation, a `persist` or the report does; otherwise every held slot is sealed, VALID exactly where earned, and after a passed validation the last thing done is to report success |
| `TaskAttempts.TaskAttempt.Leave` | agent_sys/agent/runner.py:537-548 | an exception is reported as a failure before the `finally`, and the `finally` lets go of every slot |
| `TaskAttempts.TaskAttempt.OnePhase` | agent_sys/agent/runner.py:600-609 | in each status the phase raises only for the reasons that status has, and goes on or ends as the answers it gets say; it never goes on with held slots after a poisoned pass |
| `TaskAttempts.TaskAttempt.Run` | agent_sys/agent/runner.py:519-548 | however the thread ends no slot is held, and its events have the course of `OverMeans`; an exception comes only from an answer of the script and is reported as a failure; a passed validation is reported as success unless something raised; if `_open_outputs` completed and no closing raised, or no slot call ever raised, every opening is sealed exactly once; `on_done` is called at most once, or twice if its success call raised; VALID is earned, success follows the seals, and nothing is VALID after a poisoned pass |
| `ExecutorRuns.StepKeepsInv` | agent_sys/agent/backend.py:393-504 | every step of the loop and of other threads keeps: serviced then inbox is everything queued, in order; past its last look the loop has serviced all that was queued then; past `_settle` the status is terminal |
| `ExecutorRuns.RunKeepsInv` | agent_sys/agent/backend.py:393-504 | so does every run |
| `ExecutorRuns.EndsSettled` | agent_sys/agent/backend.py:407-428 | in every run, however `mainloop` ended and whatever `start_async` came before, the status is terminal, the flag is set and instructions are refused, until the flag is cleared after `_settle` set it |
| `ExecutorRuns.AnswerIsLast` | agent_sys/agent/backend.py:430-442 | once settled, `wait` answers with the result recorded last, by the loop or by another thread, unless it was cleared since |
| `ExecutorRuns.FinishedIsEarned` | agent_sys/agent/backend.py:478-504 | a recorded FINISHED was returned by a run or written by a `stop` of another thread, and nothing was recorded after it |
| `ExecutorRuns.DeployFailureAnswers` | agent_sys/agent/backend.py:481-485 | a deployment that raises makes `wait` answer FAILED, unless something is recorded or cleared after it |
| `ExecutorRuns.RunAnswers` | agent_sys/agent/backend.py:485-488 | what a run returned is what `wait` answers, on the same terms |
| `ExecutorRuns.StopAnswers` | agent_sys/agent/backend.py:490-496 | a stop of an agent that is not finished makes `wait` answer INTERRUPTED, on the same terms |
| `ExecutorRuns.NoResultAnswers` | agent_sys/agent/backend.py:498-504 | with no result, as after a run that raised, the end of the loop makes `wait` answer FAILED, on the same terms |
| `ExecutorRuns.StatusFollows` | agent_sys/agent/backend.py:467-504 | where the loop records a result its next step makes that the status, which stays until something else writes it |
| `ExecutorRuns.WaitIsTerminalExactly` | agent_sys/agent/backend.py:430-442 | then `wait` answers, and the answer is not terminal if and only if `_run` returned it at some event and it has been the result ever since; which answer it is, the five rows above and `AnswerIsLast` say |
| `ExecutorRuns.UnfinishedAnswer` | agent_sys/agent/backend.py:498-504 | a run in which `_run` returns a status that is not terminal and `wait` hands it on |
| `ExecutorRuns.ExitCheck` | agent_sys/agent/backend.py:411-425 | in every run that left by a `break` there is a last look into the inbox, which found it empty, and what was serviced is exactly what was queued at that moment, in order |
| `ExecutorRuns.ExitRaise` | agent_sys/agent/backend.py:418-428 | in every run that left by an exception there is the event that raised it inside the `try`, and nothing was taken after it |
| `ExecutorRuns.RaiseLeaves` | agent_sys/agent/backend.py:407-488 | a deployment, a run or an instruction that raises ends the loop: until the loop is entered again nothing more is taken |
| `ExecutorRuns.BreakIsDue` | agent_sys/agent/backend.py:411-425 | the loop breaks only with a terminal status or a stop asked for |
| `ExecutorRuns.LostExactly` | agent_sys/agent/backend.py:407-428 | after a `break`, an operation put or an instruction accepted is left in the inbox if and only if it came after that last look |
| `ExecutorRuns.LostByRaiseExactly` | agent_sys/agent/backend.py:407-428 | after an exception, it is left if and only if the loop had not taken it before the event that raised |
| `ExecutorRuns.SubmissionLeft` | agent_sys/agent/backend.py:393-442 | a run in which a second `start_async` lands after the last look: its submission is left and `wait` answers with the status of the first |
| `ExecutorRuns.LostWhileLooping` | agent_sys/agent/backend.py:544-559 | a run in which an instruction accepted while the loop is still up is left |
| `ExecutorRuns.StopTakesEffect` | agent_sys/agent/backend.py:407-488 | once a stop is asked for no submission is begun, and the loop ends after a number of its own steps that only further operations can raise, under any interleaving |
| `ExecutorRuns.DoneTakesEffect` | agent_sys/agent/backend.py:407-428 | once the agent is done and no submission is put, the loop ends after a number of its own steps that only the operations still put can raise |
| `ExecutorLoop.Executor.constructor` | agent_sys/agent/backend.py:327-337 | a new executor is at the machine's start |
| `ExecutorLoop.Executor.ServiceStart` | agent_sys/agent/backend.py:467-488 | the handler follows the machine through deploy, run and finish, with other threads in between, so that what it records is what the rows on `wait` say; a stop asked for before lets no run begin |
| `ExecutorLoop.Executor.ServiceStop` | agent_sys/agent/backend.py:490-496 | the handler follows the machine and takes no operation |
| `ExecutorLoop.Executor.Settle` | agent_sys/agent/backend.py:426-504 | the `finally` follows the machine to its end and leaves the flag set |
| `ExecutorLoop.Executor.MainLoop` | agent_sys/agent/backend.py:407-428 | the loop's states are states of a run of the machine; however it ends, status terminal and settled; on a break what is serviced is what was queued at its last look and the rest is in the inbox; after a stop it ends within a turn of the last operation |
| `ServerLog.AppendReads` | agent_sys/env_mgr/servers.py:105-149 | one append cut anywhere keeps every earlier record and adds its own exactly when its encoding landed whole |
| `ServerLog.ReaderFindsExactlyTheLanded` | agent_sys/env_mgr/servers.py:105-149 | for every sequence of appends and cuts, `records` returns exactly the records that landed whole, once and in order |
| `ServerLog.TornIsNothing` | agent_sys/env_mgr/servers.py:141-148 | a torn line yields no record |
| `ServerLog.RecordsSplit` | agent_sys/env_mgr/servers.py:112-118 | the newline put before a record keeps a torn line from merging with it |
| `ServerLog.Registry.RecordSpawn` | agent_sys/env_mgr/servers.py:105-118 | appends the record after a torn or finished line; what was in the file stays |
| `ServerLog.Registry.Records` | agent_sys/env_mgr/servers.py:132-149 | returns exactly the landed records of the file's history |
| `ServerLog.ReadLines` | agent_sys/env_mgr/servers.py:138-149 | the loop skips blank and malformed lines and keeps the rest in order |
| `PathScope.CompsPlain` | agent_sys/env_mgr/sync.py:59 | normalising leaves non-empty, slash-free components, never `.`, and in an absolute path never `..` |
| `PathScope.CompsStep` | agent_sys/env_mgr/sync.py:59 | normalising an absolute path piece by piece: an empty piece and `.` stay, `..` goes up and at the root nowhere, a name goes down |
| `PathScope.JoinPrefix` | agent_sys/env_mgr/sync.py:60 | a string prefix up to a separator is a prefix of the component list, both ways |
| `PathScope.UnderIsContainment` | agent_sys/env_mgr/sync.py:52-60 | for all strings, the string test after normalisation equals component containment if and only if the root is not the current directory or the path is not a relative one below it, where the test is false |
| `PathScope.DotHoldsNothing` | agent_sys/env_mgr/sync.py:52-60 | `a` lies by component in `.` and the test denies it |
| `PathScope.AbsoluteContainment` | agent_sys/env_mgr/sync.py:52-60 | for absolute paths with one leading slash it is extension of the component list, with no `..` left |
| `PathScope.ScopeIsContainment` | agent_sys/env_mgr/sync.py:92-103 | a mapping is accepted if and only if every far root lies, by component, at or below a declared root, and not only below one that is the current directory; the one refused lies under no other |
| `PathScope.FirstRefused` | agent_sys/env_mgr/sync.py:92-103 | the mapping refused is the first, in order, that no declared root allows |
| `PathScope.RelativeRootClimbs` | agent_sys/env_mgr/sync.py:52-60 | the relative root `..` contains `../..` |
| `PathScope.RootHoldsExactly` | agent_sys/env_mgr/sync.py:52-60 | for all roots: no accepted path climbs out of it if and only if it normalises to no component or has one other than `..` |
| `PathScope.FirstCovering` | agent_sys/env_mgr/sync.py:106-120 | `match` finds the first mapping that covers the zone, nothing exactly when none does, and raises for an empty zone path that is covered |
| `PathScope.CoversByParts` | agent_sys/env_mgr/sync.py:116-117 | a local root covers a zone exactly when its pieces between slashes, trailing ones apart, begin the zone's |
| `PathScope.CoversIsContainment` | agent_sys/env_mgr/sync.py:116-117 | so for absolute paths in normal form it is containment by component |
| `PathScope.FarPathComps` | agent_sys/env_mgr/sync.py:118-119 | the far path, absolute or relative, goes up from the far root as far as the zone lies above the local root, then follows the zone |
| `PathScope.FarPathInsideExactly` | agent_sys/env_mgr/sync.py:106-143 | the far path lies under the far root if and only if the far root's components given up on the way are the first that the rest of the zone names again |
| `PathScope.FarPathUnderExactly` | agent_sys/env_mgr/sync.py:52-143 | it lies under any other root if and only if what is kept of the far root does, or leads to it and the rest of the zone names what is missing |
| `PathScope.CoveredIsUnder` | agent_sys/env_mgr/sync.py:116-118 | a zone written without `..` and covered by a local root other than `/` gives up no component |
| `PathScope.DeletionStaysInScope` | agent_sys/env_mgr/sync.py:92-143 | a far path computed from an accepted configuration lies under a declared root if and only if it reaches one that way, and always when the zone gives up no component and the far root is not the current directory |
| `PathScope.RootMappingEscapes` | agent_sys/env_mgr/sync.py:116-119 | with the local root `/` a zone beside the current directory is sent outside every declared root |
| `ClosureIndex.SortedNames` | agent_sys/closure/query.py:122 | the catalogue's names, strictly ascending, each once |
| `ClosureIndex.Append` | agent_sys/closure/query.py:103-106 | adds a name to one bucket unless present and leaves all others |
| `ClosureIndex.AppendAll` | agent_sys/closure/query.py:127-142 | adds a closure once to the bucket of each name it uses, repeats included |
| `ClosureIndex.JoinedMeans` | agent_sys/closure/query.py:126-132 | the joined validators of a closure are its own as declared, then once each what the known kinds among its inputs and outputs bring, and no others |
| `ClosureIndex.DedupBrings` | agent_sys/closure/model.py:90-93 | a kind that is both input and output, or named twice, brings nothing more |
| `ClosureIndex.JoinValidators` | agent_sys/closure/query.py:126-132 | the loop computes that join |
| `ClosureIndex.BuildIndex` | agent_sys/closure/query.py:109-151 | builds the index of the catalogue: for every kind, agent and validator the ascending list of exactly the closures whose documents name it, the universes of the registries, and each closure's joined validators |
| `ClosureIndex.QueriesAgree` | agent_sys/closure/query.py:75-100 | every query of that index: an unknown name raises, a known one gets the ascending, repeat-free list of exactly the closures with the kind among inputs or outputs, with that agent, or with that validator, empty if none; `validators_for` gives the join, and for an unknown closure its own |
| `ClosureIndex.AnswerIsOne` | agent_sys/closure/query.py:75-97 | and there is only one such answer |
| `VersionLineage.ForestIffRanked` | agent_sys/kernel_registry/registry.py:280-289 | all parent chains end through known versions exactly when the parent relation has a rank, that is, is acyclic |
| `VersionLineage.CycleNeverEnds` | agent_sys/kernel_registry/registry.py:286-287 | a chain that meets itself never ends |
| `VersionLineage.WalkUp` | agent_sys/kernel_registry/registry.py:280-289 | accepts exactly the versions whose chain ends; names an unknown parent or the place of a cycle only when the chain leads there; terminates since `seen` grows within the known versions |
| `VersionLineage.IndexById` | agent_sys/kernel_registry/registry.py:271-279 | accepts exactly lists with present, unique ids and sources, and otherwise names the first version with something wrong and what, its id before its sources |
| `VersionLineage.ParentsAt` | agent_sys/kernel_registry/registry.py:279 | the index gives each version its own parent |
| `VersionLineage.CheckVersions` | agent_sys/kernel_registry/registry.py:271-289 | accepts exactly the well-named version lists whose parents form a finite forest; otherwise it names the first fault, or the first version whose chain does not end and where that chain leads |

## Left out

- README sections, item schemas and JSON pointers: what `seal` and `put` admit is an arbitrary choice.
- `canonical` in `digest.py`, `readme.py`, `pointer.py`, `locality.py`: they rest on Markdown, RFC 8785, RFC 6901 and JSON Schema libraries.
- A content tree that changes while it is being walked: hashing a directory is one step. Emptiness check, admission and hashing of a `seal` are one step too.
- A `seal` of a number that was never allocated, and a store without a kind for the handoff: both raise before touching anything.
- `HandoffStore.NumbersAreUnique`: assumes the callers' rule that a version is sealed after it was returned and by one caller at a time, and a stable label per handoff; two sealers of one version are not modelled.
- `HandoffStore.ListingOnlyGrows`: a listing is read in one step; a scan interleaved with renames may miss a version that appears meanwhile.
- Later rewrites of `validation.yaml` by a recorded verdict: they replace the file in place and are not part of the publication protocol.
- An exception delivered between the rename in `put` and its return.
- `StoreNames.ListerReadsNames`: covers the names the store writes; Unicode digits, which Python's `isdigit` also accepts, are not modelled.
- `StoreNames.OneDirectoryEach`: requests are served one after another; two processes creating one handoff under different kinds at once are not modelled.
- `PlannedQueue`, and the timeout of `get`: a bounded wait ends in a step that finds something or nothing.
- `ThreadOwnership.OneThreadPerAttempt`: takes `halt` as final, as `Runner.stop` makes it; the timed join of a released thread in `begin` changes nothing modelled and is omitted.
- `_deploy`, briefs, confinement and the choice of a backend: one step that may raise.
- Scheduler, `HandoffMgr` storage and monitor policy: only the calls the runner makes are modelled.
- `TaskAttempts.TaskAttempt.Run`: where a closing raised, what is left open is stated by `SealModelVersions` and `AllSealedExactly`; where `_open_outputs` itself raised, the slots opened before stay open, as in the code. On the crash path `on_done` precedes the closing of the slots, as in the code.
- A second exception inside `_crash`: the `finally` runs all the same and the thread dies; the model lets that report return.
- `ExecutorLoop.Executor.MainLoop`: an exception of another kind inside the `try` is an event of the machine and not of the code; tick length and stop grace are not modelled.
- `ServerLog.ReaderFindsExactlyTheLanded`: JSON is any encoding of one line whose decoder inverts it and rejects its proper prefixes; Python's default JSON is ASCII, so bytes are characters.
- `PathScope.FarPathComps`: takes the current directory to be absolute, as the operating system reports it.
- `sync`, `conflicts`, transports and rsync itself.
- The registries behind the closure index, and the rest of the kernel record check.
- The command line, isolation, containers, harnesses, validators, logging and process probing: effects outside this logic.
