# Experimaestro in Dafny

Experimaestro runs experiments as jobs. A job is identified by a digest of its parameters and lives in a directory named
after it; jobs depend on each other and on tokens that limit concurrency; processes on one machine coordinate through
marker files. This project models that machinery and proves what it relies on. `dafny verify dfyconfig.toml` checks it.

**Launching** (`LaunchProtocol.dfy`, `LaunchRace.dfy`, `LaunchVerdict.dfy`, `LaunchScript.dfy`). Any number of launchers
and of the scripts they start share the files `lock`, `lock.start`, `pid`, `code` and `done` of one job directory. The
protocol is a step system: every file operation of `CommandLineJob::run`, of the lock objects and of the script is one
step, and a run is any sequence of steps. The script builder is modelled as the lines it writes, with a small shell that
executes them; a system of launchers and such shells is proved to refine the protocol.

**Scheduling** (`SchedulerSpec.dfy` to `SchedulerWitnesses.dfy`, `Workspace.dfy`). Every critical section of the
workspace mutex is one step. The state keeps jobs, dependencies, tokens and the threads that `start` spawns, with the
locks they hold, so that start requests and releases still to come are part of it. `SchedulerSpec` gives the sections as
functions; `SchedulerCounters`, `SchedulerRuns`, `SchedulerTokens`, `SchedulerLimits` and `SchedulerWakeups` prove their
invariants over all runs, `SchedulerRequests` which starts are requested, `SchedulerOrigins` and `SchedulerStates` what
dependencies record and which state jobs are in, and `SchedulerWitnesses` has the runs in which tokens go wrong. The
class in `Workspace.dfy` holds the same tables and carries out the same sections with the source's loops and updates in
place; that is its whole purpose. The results are proved on the functions and hold of the object through `Execute`.

**Parameters and identity** (`Values.dfy`, `Identity.dfy`, `Generation.dfy`, `ValueObjects.dfy`, `ValueJson.dfy`,
`ValueRoundTrip.dfy`, `ValueReading.dfy`, `ValueDefaults.dfy`, `GenerationFills.dfy`, `IdentifierChanges.dfy`,
`IdentifierTells.dfy`). Values are trees of scalars, arrays and typed maps with flags. The byte stream of the digest is
written out; SHA-1 and the memory representation of a double are arbitrary functions. Generation is modelled inside the
tree around the value at hand, because path generators read the digest of the whole tree while it changes.
`ValueObjects.dfy` has the mutable nodes, with copies, sharing, sealing and the digest loops.

**Smaller cores**. Path algebra and marker files (`Paths.dfy`, `Markers.dfy`), the consuming loop of the command-line
parser (`CommandParser.dfy`, `CommandParserLoop.dfy`, `CommandParserTheorems.dfy`, `CommandTokens.dfy`), the job index
of the user interface (`JobIndex.dfy`), auxiliary file names (`AuxiliaryFiles.dfy`), command lines as JSON
(`CommandJson.dfy`), scoped variables (`ScopedLookup.dfy`) and the type order (`TypeOrder.dfy`).

Where a property does not hold of the code, the code is kept and the exact condition is proved: raising a token limit
can lose a wake-up, lowering one under a running job or a sum that wraps around leaves the running jobs above the limit,
a constant that is filled in changes the content behind a job's identifier, `relativeTo` of a path to itself reads past
the strings, a variable key with a leading dot can be searched for ever, and the least common ancestor of a type and one
of its proper ancestors is the type itself. A launcher can also throw when a lock file is removed between its failed
creation and its inspection.

A character of a `string` stands for one byte of a `std::string`. Job numbers are a topological numbering of the acyclic
dependency graph. A run of the scheduler "fits" when every value asked of a token fits in 32 bits beside its use and its
limit, at the time the dependency is added and whenever the limit is changed; it is "quiet" when moreover no new limit
lets in a dependency that waits for the token.

## Model

| member | source | states |
|---|---|---|
| LaunchProtocol.MutualExclusion | src/workspace.cpp:495-591 | In every run of any number of launchers and scripts: `lock` exists exactly when it has an owner, the owner is unique, `pid` names a script that owns the lock, no launcher is in its critical section while a command runs, and at most one command runs |
| LaunchProtocol.NoneStartsAfterDone | src/workspace.cpp:505-530 | In a state of the protocol where `done` exists no command runs, and no step starts one or removes `done` |
| LaunchProtocol.DoneIsFinal | src/workspace.cpp:505-560 | Once `done` exists it stays, with exit code 0 beside it, and whatever happens afterwards no further command of that locator starts or runs |
| LaunchProtocol.DoneIsSound | src/connectors/local_unix.cpp:459-508 | A launcher reports DONE, a `done` file exists and a code 0 is recorded only if a command of that locator exited with 0; what each launcher reports, in both directions, is VerdictIsReported |
| LaunchVerdict.VerdictIsReported | src/workspace.cpp:495-591 | In every run a launcher that has left `run` reports for good what the way it left says: DONE if it saw `done`; DONE or ERROR by the exit code of the command of the script it started itself if the wait was answered; ERROR if the wait failed; DONE or ERROR by the recorded number if it read `code`; nothing if it timed out waiting for the lock |
| LaunchVerdict.SuccessIsReported | src/workspace.cpp:506-523 | A launcher whose wait is answered reports DONE if the command of its own script exited with 0 and ERROR otherwise |
| LaunchVerdict.ChildIsOwn | src/workspace.cpp:572-590 | The process a launcher waits for is the script that it started, in every run |
| LaunchVerdict.LaunchCompletes | src/workspace.cpp:495-591 | For every exit code there is a run of one launcher and its script to the end: the code is recorded, `done` exists exactly for 0, no other file is left, and the launcher reports accordingly |
| LaunchVerdict.WatcherReportsTheSame | src/workspace.cpp:526-541 | A second launcher that watches the first one's process reports the same, for every exit code |
| LaunchVerdict.LauncherMovesUnlessWaiting | src/workspace.cpp:495-591 | In every run a launcher can take a step unless it has returned, has thrown, or waits for a process that is still there |
| LaunchVerdict.ScriptsEnd | src/scriptbuilder.cpp:70-189 | Every step of a script brings it nearer to its end |
| LaunchProtocol.HandOverIsClean | src/connectors/connectors.cpp:8-24 | The guards of a script never refuse, the start lock is never found taken, no destructor removes a lock that was handed over or finds its file missing, and no verdict depends on a number read from a missing file |
| LaunchProtocol.RunKeepsInv | src/workspace.cpp:495-591 | The invariant behind these results holds in every reachable state |
| LaunchProtocol.LauncherKeepsInv | src/workspace.cpp:495-591 | Every step of a launcher (double check, lock, fork, detach, wait, unwinding) keeps the invariant |
| LaunchProtocol.ScriptKeepsInv | src/scriptbuilder.cpp:70-189 | Every step of a script (guards, start-lock removal, pid, command, code, done, cleanup) keeps the invariant |
| LaunchRace.ThrowsIffRaced | src/connectors/local_unix.cpp:385-416 | In every run a launcher has thrown if and only if it once found `lock` taken and `lock` was gone at its very next step |
| LaunchRace.RaceIsARemoval | src/connectors/local_unix.cpp:385-416 | In between somebody else, the owner of `lock` at that moment, removed it |
| LaunchRace.RaceThrows | src/connectors/local_unix.cpp:385-416 | A run in which a launcher throws in this way |
| LaunchScript.ShScriptBuilder.Write | src/scriptbuilder.cpp:70-189 | For any lock files, environment and notification, the lines written are in order: a guard per lock file, the start-lock guard and removal, the pid, the trapped cleanup, the command, its status, and `done` last |
| LaunchScript.ShScriptBuilder.EmitCleanup | src/scriptbuilder.cpp:112-152 | The cleanup function removes `pid` first and then every lock file |
| LaunchScript.LineIsProtocolStep | src/scriptbuilder.cpp:70-189 | Executing one line of a written script is one step of the protocol's script, or changes nothing the protocol sees |
| LaunchScript.SystemRunFollows | src/workspace.cpp:495-591 | Every run of launchers together with shells that execute written scripts is a run of the protocol |
| LaunchScript.WrittenScriptsAreSafe | src/scriptbuilder.cpp:70-189 | However launchers and shells interleave, at most one command runs and only under the lock, none runs once `done` exists, and `done` means that some command exited with 0 |
| SchedulerTheorems.CounterAgreement | src/workspace.cpp:357-405 | In every run, through nested checks and completions, the unsatisfied counter of a job is the number of its dependencies not recorded OK |
| SchedulerCounters.CounterMoves | src/workspace.cpp:357-361 | The update of the counter as an unsigned size never wraps around and leaves every other job as it was |
| SchedulerTheorems.CounterAfterChange | src/workspace.cpp:357-375 | The counter becomes 0 exactly when the last dependency not recorded OK becomes OK |
| SchedulerOrigins.CheckShowsOrigin | src/workspace.cpp:144-152 | A check of a dependency on a job records OK exactly if that job is DONE, FAIL exactly if it is ERROR, and WAIT otherwise |
| SchedulerOrigins.CheckShowsToken | src/workspace.cpp:245-248 | A check of an unlocked dependency on a token records OK exactly if use and value together, modulo 2^32, are within the limit |
| SchedulerOrigins.CompletionIsRecorded | src/workspace.cpp:397-405 | In every run announcing a completion records for every dependency registered with the job whether it is DONE, ERROR or neither; if it is ERROR, the target has then left the unfinished jobs |
| SchedulerOrigins.DoneOriginsStartTheJob | src/workspace.cpp:357-375 | In every run, whatever happens to tokens and limits, a submitted, unannounced job that depends only on jobs that are DONE and announced has a start under way |
| SchedulerStates.JobStateIsTheLastSaid | src/workspace.cpp:422-468 | In every run a job is in the state that the last event about it gave it: its creation, a start that was aborted (READY), launched it (RUNNING), found it done or watched it, or the verdict of its run |
| SchedulerStates.StepSetsState | src/workspace.cpp:422-468 | No section, through all its checks and completions, changes the state of any other job, nor its own job's in any other way |
| SchedulerStates.StartRunsIff | src/workspace.cpp:429-456 | A start runs its job if and only if its thread then holds the lock of every token the job depends on; otherwise it is aborted |
| SchedulerTheorems.StartsExactlyWhenReady | src/workspace.cpp:144-152 | A single check whose dependency did not fail requests one start if it records the last missing dependency OK, and otherwise none |
| SchedulerRequests.CheckRequests | src/workspace.cpp:357-405 | Through any nesting of failures, completions and further checks, the starts requested by a check are one for each call of `check` that finds its dependency satisfied, not locked and the last one of its job not recorded OK, in the order of the calls, and no others |
| SchedulerRequests.StartsAreRequestedExactlyWhenReady | src/workspace.cpp:422-468 | In every run, the threads that a critical section spawns are exactly those of its ready checks, over all its rounds (registration, abort, completion, release of every lock), and one for a job first submitted without dependencies; no other thread than its own changes |
| SchedulerRequests.EveryStartedJobWasReady | src/workspace.cpp:422-468 | In every run each thread a critical section spawns is the start of a check that found its job ready, or of a job without dependencies |
| SchedulerRequests.ReadyMakesAllOk | src/workspace.cpp:144-152 | Right after a check that finds its job ready every dependency of the job is recorded OK |
| SchedulerRequests.CompletionStartsSatisfied | src/workspace.cpp:397-405 | However deep failures are passed on, announcing a completion starts only jobs each of whose dependencies was recorded OK before or is satisfied and not locked |
| SchedulerTheorems.RegisterNotLast | src/workspace.cpp:658-664 | Registering and checking a dependency that is not the last one requests no start of the job being submitted |
| SchedulerTheorems.SubmitStartsAtLast | src/workspace.cpp:658-664 | While a job is submitted no start of it is requested before its last dependency is checked |
| SchedulerRuns.RunKeepsInv | src/workspace.cpp:422-468 | Every run keeps the scheduler's invariant: counters, registration, locks held by threads, and a start under way for every unfinished job without an open dependency |
| SchedulerRuns.SubmitKeepsInv | src/workspace.cpp:637-674 | Submitting a job keeps the invariant although dependencies are checked while others are not registered yet |
| SchedulerRuns.StartSectionKeepsInv | src/workspace.cpp:429-456 | The critical section of a start keeps the invariant, whether it runs the job or aborts at a dependency that is short of tokens |
| SchedulerRuns.CompleteSectionKeepsInv | src/workspace.cpp:458-467 | Announcing a completion and then releasing all locks keeps the invariant |
| SchedulerTokens.TokenConservation | src/workspace.cpp:200-253 | In every run the use of a token is the sum of the values of its live locks modulo 2^32, each dependency counted once |
| SchedulerTokens.LockAccounts | src/workspace.cpp:155-161 | Taking a lock adds the value once: sharing a live lock adds nothing |
| SchedulerTokens.ReleaseAccounts | src/workspace.cpp:224-233 | The last holder's release gives back exactly what the lock took, earlier releases nothing |
| SchedulerTheorems.EndedHoldsNothing | src/workspace.cpp:429-468 | A thread that has ended, after an aborted start as after a run, holds no lock |
| SchedulerTheorems.RunningJobsStayWithinLimit | src/workspace.cpp:200-257 | As long as the values asked fit beside uses and limits in 32 bits, the use of a token is exactly the sum of its live locks and covers the values asked by all jobs being run together; if moreover no limit is set below the use of its token, it stays within the limit. Limits may be changed at any time |
| SchedulerTheorems.LimitsHoldIff | src/workspace.cpp:257-257 | Such a run stays within all limits from beginning to end if and only if no event sets a limit below the use of its token |
| SchedulerLimits.LimitIsKeptIff | src/workspace.cpp:257-257 | Setting a limit keeps sums fitting if and only if the values asked fit beside the new limit, and keeps the live locks within the limit if and only if the new limit is not below the use |
| SchedulerWitnesses.LoweredLimitIsExceeded | src/workspace.cpp:257-257 | A run in which a limit is lowered under a running job, which then exceeds it |
| SchedulerWitnesses.WrappedSumIsExceeded | src/workspace.cpp:216-222 | A run that changes no limit and in which two running jobs together exceed it, because the 32-bit sum wraps to 0 |
| SchedulerTheorems.AcquisitionIsExactIff | src/workspace.cpp:216-222 | The 32-bit acquisition test decides like the exact sum if and only if the sum does not wrap, or wraps to something still above the limit |
| SchedulerWakeups.RunKeepsCalm | src/workspace.cpp:144-161 | As long as values fit and no new limit lets in a dependency that waits, every dependency recorded unsatisfied is so now and not locked, or has a completion notice coming, in every reachable state |
| SchedulerTheorems.NoLostWakeUp | src/workspace.cpp:357-375 | In such runs a submitted, unannounced job has a start under way, or depends on a job that is not DONE or whose notice is pending, or on a token whose use and value exceed the limit, also after aborted starts and changes of limits |
| SchedulerWakeups.LimitKeepsAwakeIff | src/workspace.cpp:257-257 | Changing a limit loses no wake-up if and only if no dependency waiting for the token fits under the new limit; the runs above are those whose changes meet this condition |
| SchedulerWitnesses.RaisedLimitLosesWakeUp | src/workspace.cpp:257-257 | A run in which raising a limit leaves a job waiting for nothing, with no start under way |
| WorkspaceModel.Workspace.Check | src/workspace.cpp:144-152 | The method on the object's tables computes the scheduler function: nothing under a live lock, otherwise the target is told first and the status recorded after; what is recorded is stated by CheckShowsOrigin and CheckShowsToken |
| WorkspaceModel.Workspace.DependencyChanged | src/workspace.cpp:357-375 | Counter update, then completion on failure, else a start request at 0; the whole new state |
| WorkspaceModel.Workspace.JobCompleted | src/workspace.cpp:397-405 | The job leaves the waiting set and every dependent is checked in order; the whole new state |
| WorkspaceModel.Workspace.Lock | src/workspace.cpp:155-161 | A share in a live lock, a new lock if the tokens suffice, or no lock and an unchanged state |
| WorkspaceModel.Workspace.Release | src/workspace.cpp:224-233 | The last release of a lock returns its tokens and checks every dependent of the token |
| WorkspaceModel.Workspace.StartSection | src/workspace.cpp:429-456 | Locks the dependencies in order and runs the job, or aborts at the first one that is short; the whole new state |
| WorkspaceModel.Workspace.CompleteSection | src/workspace.cpp:458-467 | Announces the completion, then releases every lock; the whole new state |
| WorkspaceModel.Workspace.AddDependency | src/workspace.cpp:383-391 | The new dependency counts as unsatisfied; the whole new state |
| WorkspaceModel.Workspace.Submit | src/workspace.cpp:637-674 | Skips a known identifier, otherwise registers and checks the dependencies one by one; the whole new state |
| WorkspaceModel.Workspace.Execute | src/workspace.cpp:422-468 | Any sequence of critical sections on the object is a run of the scheduler, so the results above hold of the object |
| Paths.NameOfChild | src/filesystem.cpp:95-99 | `(p / n).name()` is n for slash-free n |
| Paths.ParentOfChild | src/filesystem.cpp:52-69 | `(p / n).parent()` is p, except that the empty path comes back as the root |
| Paths.UpAndDown | src/filesystem.cpp:58-69 | `p.parent() / p.name()` is p exactly when p has a slash and is not of the form `//n` |
| Paths.RelativeToLoop | src/filesystem.cpp:119-156 | The scanning loops compute the specification by longest common prefix and last slash, and run past the strings exactly when one string, with its terminating NUL, is a prefix of the other |
| Paths.JoinThenRelative | src/filesystem.cpp:119-156 | For an absolute base, `(base / r).relativeTo(base)` is r if and only if the base is not the root, or r is non-empty and does not start with a slash |
| Paths.RelativeMeaning | src/filesystem.cpp:119-156 | The result leads back to the path, from the base itself if the path lies below it and from the base's parent otherwise |
| Paths.RelativeToItself | src/filesystem.cpp:119-156 | For absolute paths on one share without NUL bytes the loops run past the strings exactly when a path is taken relative to itself |
| Paths.RefusedIff | src/filesystem.cpp:119-156 | Exactly paths without a leading slash, on either side, are refused |
| Markers.ExtensionIsAppended | src/filesystem.cpp:71-79 | `withExtension` appends a dot and the extension if and only if the last component has no dot |
| Markers.ExtensionReplaces | src/filesystem.cpp:71-79 | A last component with a dot keeps what is before it and is followed by the extension without a dot |
| Markers.HexIsInjective | src/xpm.cpp:293-308 | The textual identifier determines the digest |
| Markers.HexHasValue | src/xpm.cpp:293-308 | Each byte is written as two lower-case hexadecimal digits, the high one first |
| Markers.LocalNameIs | src/workspace.cpp:121-125 | The local name is what follows the namespace |
| Markers.MarkersAreDistinct | src/workspace.cpp:121-125 | For slash-free task identifiers, task, digest and extension are determined by the marker path: two jobs, or two markers of one job, never share a file |
| Values.DigestOfContent | src/xpm.cpp:744-768 | Values with equal canonical content (no flags, no ignorable entries, type names only) feed the same bytes to the digest |
| Values.PruningKeepsIdentifier | src/xpm.cpp:275-291 | Removing ignorable map entries at every depth does not change the identifier; array elements are not removed |
| Values.IdentifiersCollide | src/xpm.cpp:744-768 | Two values with different content and one identifier, whatever the hash: the stream has no length prefixes |
| IdentifierTells.ScalarsAreTold | src/scalar.cpp:483-507 | 64-bit integers, byte texts, truth values, and reals that their memory representation tells apart have the same byte stream only if they are the same scalar of the same kind |
| IdentifierTells.IdentifierTellsContent | src/xpm.cpp:744-768 | Values built alike (types, tasks and keys of the same length, scalars and arrays free below a key) have one identifier if and only if they have one content, if digests have one length and the hashed streams do not collide |
| IdentifierTells.VisibleScalarShows | src/xpm.cpp:744-768 | Under the same assumption two maps that differ in one visible scalar binding have different identifiers |
| IdentifierTells.LeftOutBindingIsUnseen | src/xpm.cpp:275-291 | Bindings flagged as ignored or default, paths, and maps of an ignored type do not show in the identifier, whatever they are |
| Values.SetAllBinds | src/xpm.cpp:846-876 | After any sequence of successful `set` calls each key has its last value, with the flags its argument gives it, and the map is sorted |
| ValueDefaults.SetFlagsByContent | src/xpm.cpp:846-876 | After `set` calls a key has the content of its last value, flagged as default exactly if it was before or has the content of the default of the type's argument, and as ignored exactly if it was before or the argument is |
| ValueDefaults.EqualsIffSameContent | src/xpm.cpp:509-522 | Comparing a value without maps and unset scalars says whether the contents are the same, flags aside, and never throws |
| Values.LessIsLexicographic | src/xpm.cpp:846-876 | Keys are ordered by the first byte where they differ, a proper prefix first |
| Values.SetOrderDoesNotMatter | src/xpm.cpp:846-876 | Two sequences of `set` calls with the same last bindings give the same map and the same identifier |
| Identity.GenerateUnseen | src/xpm.cpp:334-355 | Generation inside any surrounding tree leaves the canonical content of the whole tree as it was after every argument it fills, unless it fills a constant that counts |
| Identity.FillTypesUnseen | src/xpm.cpp:647-681 | Filling missing arguments up the type chain by generator, default or null adds only bindings that do not count; which bindings is stated by GenerateCompletes |
| GenerationFills.GenerateCompletes | src/xpm.cpp:647-681 | A successful generation keeps every binding, up to the generation below it, and binds every missing key that some argument supplies: to a copy of the default, flagged default and ignored as declared; to a copy of the constant without those flags unless the type's own argument asks for them; to null, flagged default; or to a path under a job directory. No other key appears |
| GenerationFills.GenerateCompletesUnder | src/xpm.cpp:1159-1173 | Where no visible constant is missing, every generated path is the generator's name under the one directory of the root's task and identifier |
| GenerationFills.SupplierIsFirst | src/xpm.cpp:647-681 | The argument that supplies a key is the first of that name, in the type and then the types above it, with a generator, a default or a constant, or not required; there is none exactly if nobody can supply |
| GenerationFills.DefaultIsFilledIn | src/xpm.cpp:660-665 | A missing key whose supplier has a default gets the content of that default, flagged as default |
| GenerationFills.ConstantIsFilledIn | src/xpm.cpp:666-671 | A missing key whose supplier has a constant gets the content of that constant, flagged only as the type's own argument says |
| GenerationFills.UnsuppliedStaysUnbound | src/xpm.cpp:647-681 | A key that no argument supplies, such as that of a required argument with nothing to give, stays unbound |
| GenerationTheorems.ContentIsKeptIff | src/xpm.cpp:647-681 | When generation succeeds it keeps the canonical content if and only if no map that counts misses a visible constant |
| GenerationTheorems.IdentifierIsStable | src/xpm.cpp:334-355 | Under that condition the identifier of the root is the same after each filled argument and at the end, even if generation throws half-way |
| GenerationTheorems.GenerationAgrees | src/xpm.cpp:1159-1173 | Path generators that read the digest of the changing tree emit what one directory known at the start gives |
| GenerationTheorems.GenerateGrows | src/xpm.cpp:647-681 | Generation never loses content, and adds some when a visible constant was missing |
| GenerationTheorems.SealKeepsContent | src/xpm.cpp:255-261 | Sealing does not change the content |
| GenerationTheorems.SubmitUsesOneIdentifier | src/task.cpp:48-60 | The job identifier computed before configuration, the locator, all generated paths and the identifier of the configured parameters agree |
| GenerationTheorems.MissingConstantChangesContent | src/task.cpp:48-60 | With a visible constant missing, the configured parameters have a content other than the one the job identifier was computed from |
| IdentifierChanges.IdentifierIsKeptIff | src/xpm.cpp:744-768 | If digests have one length and no stream hashed before generation collides with a different one hashed after, successful generation keeps the identifier if and only if no map that counts misses a visible constant |
| IdentifierChanges.JobIsNamedRightIff | src/task.cpp:48-60 | Under the same assumption a submitted job's identifier is that of the parameters it runs with if and only if no visible constant was missing |
| IdentifierChanges.GrownStream | src/xpm.cpp:744-768 | Adding entries to maps at any depth never shortens the byte stream, and without collisions leaves it equal only if nothing was added |
| IdentifierChanges.ConstantIsMissing | src/task.cpp:48-60 | A concrete type and value with which submission succeeds and changes the content |
| ValueObjects.Node.Copy | src/xpm.cpp:569-582 | A copy has the same content and flags and consists of fresh nodes only |
| ValueObjects.Node.Set | src/xpm.cpp:846-876 | Binds a fresh copy: content, flags and exceptions as specified, and only fresh nodes join the map |
| ValueObjects.Node.PushBack | src/xpm.cpp:504-507 | Appends the very object it is given |
| ValueObjects.Node.Seal | src/xpm.cpp:255-261 | Seals every node not below a sealed one, and nothing else changes |
| ValueObjects.Node.EqualTo | src/xpm.cpp:509-522 | Comparison with a default value: element by element up to the first difference or exception, never for maps |
| ValueObjects.Node.UpdateDigest | src/xpm.cpp:465-471 | The loops over children feed exactly the specified byte stream of the node's content; what that stream tells apart is stated by ScalarsAreTold and IdentifierTellsContent |
| ValueObjects.SetThenAnything | src/xpm.cpp:846-876 | After `set`, whatever happens to the nodes of the value that was passed, the map keeps the content `set` gave it |
| ValueObjects.CopyThenAnything | src/xpm.cpp:569-582 | Whatever happens to the nodes of a copy does not show in the original, nor the other way round |
| ValueObjects.SetThenChange | src/xpm.cpp:846-876 | In particular after extending and sealing the value that was passed, whose own new content is given as well |
| ValueObjects.PushThenChange | src/xpm.cpp:504-507 | After `push_back`, changing the value that was passed shows in the array |
| ValueObjects.InsertAtPlace | src/xpm.cpp:846-876 | Inserting at the first position whose key is not less is insertion in the sorted map |
| ValueRoundTrip.RoundTrip | src/xpm.cpp:136-226 | Reading a written value gives the value back up to flags if and only if it has no unset and no integral real scalar, its map types resolve to themselves, its tasks are registered, and its values can be compared with the defaults of their arguments |
| ValueRoundTrip.ScalarComesBack | src/scalar.cpp:231-270 | A scalar comes back unless it is unset or an integral real |
| ValueRoundTrip.PathComesBack | src/scalar.cpp:439-456 | A path is written as an object and read back as the same path |
| ValueRoundTrip.FieldsRebuild | src/xpm.cpp:721-742 | Reading the fields of a written map in key order rebuilds its entries in order, or fails at the first that cannot be read |
| ValueRoundTrip.TaskIsSet | src/xpm.cpp:136-226 | It does not matter where among the entries the task field comes |
| ValueReading.ObjectHasKind | src/xpm.cpp:136-226 | Any object is read as a scalar if its type is one or it has a `$value`, as an array if its type is one, and otherwise as a map of its type |
| ValueReading.ObjectBinds | src/xpm.cpp:136-226 | A map that is read binds exactly the fields that are not reserved, each to what its value reads as, with the flags of the type's argument |
| ValueReading.ElementsAreRead | src/xpm.cpp:136-226 | An array is read element by element, and fails if and only if some element does |
| ValueReading.CastKeeps | src/scalar.cpp:340-437 | A cast gives the declared kind and keeps the number, the truth value or the text |
| ValueReading.DeclaredHasKind | src/xpm.cpp:136-226 | A declared scalar has the declared kind, except that null stays null and an integer is accepted as a real |
| CommandParserLoop.Parser.Parse | include/private/__xpm/CLI11.hpp:3297-3303 | Terminates for every app tree and argument list; on return every argument is used and each use is justified where it happens, or an option of fixed size ran short of values |
| CommandParserLoop.Parser.ParseArg | include/private/__xpm/CLI11.hpp:3540-3640 | An option with attached value, flag, cluster, fixed or unlimited list, or a fall-through to the parent; the first use is the one the token's form and the option's size call for; shrinks the arguments or fails for lack of values |
| CommandTokens.LongTokenIs | include/private/__xpm/CLI11.hpp:845-860 | A token is a long option exactly if it is `--name=value` or `--name` for a name that begins with a letter or underscore and has no `=`, and then has that name and that value or none |
| CommandTokens.ShortTokenIs | include/private/__xpm/CLI11.hpp:835-842 | A token is a short option exactly if it is a dash, a letter or underscore, and a rest |
| CommandTokens.AttachedLongValue | include/private/__xpm/CLI11.hpp:3583-3592 | `--name=value` is put to the first option of that name, adds exactly the value to its results, and changes no other result |
| CommandTokens.AttachedShortValue | include/private/__xpm/CLI11.hpp:3597-3605 | `-cvalue` adds exactly the value at an option that takes values |
| CommandTokens.ClusterLeavesRest | include/private/__xpm/CLI11.hpp:3593-3643 | `-crest` at an option without values records the flag and leaves `-rest` |
| CommandTokens.AttachedValueInRun | include/private/__xpm/CLI11.hpp:3540-3640 | In an explained run that begins with `--name=value` the value is the first thing recorded at the option |
| CommandTokens.PositionalsAreFilledInOrder | include/private/__xpm/CLI11.hpp:3487-3514 | A positional takes a value only while it misses some and those before it have all theirs |
| CommandTokens.RecognizedAs | include/private/__xpm/CLI11.hpp:3283-3295 | A token is `--`, else a subcommand that the app or one above it still offers, else a long option, else a short one, else none of these |
| CommandParserLoop.Parser.ParsePositional | include/private/__xpm/CLI11.hpp:3487-3514 | The argument goes to the first open positional of the nearest app that falls through to it, or is recorded as missing |
| CommandParserLoop.Parser.ParseSubcommand | include/private/__xpm/CLI11.hpp:3520-3537 | A recognised subcommand is found in the app or above it: the internal error is unreachable |
| CommandParserLoop.Parser.CountRemaining | include/private/__xpm/CLI11.hpp:3476-3485 | The count is what the last positional of fixed size that misses values still misses, and 0 exactly when there is none; it is not the sum over all of them |
| CommandParser.LastMissIs | include/private/__xpm/CLI11.hpp:3476-3485 | A positive count is what one wanting positional still misses, and no later one is wanting; 0 means that none is |
| CommandParser.UseShrinks | include/private/__xpm/CLI11.hpp:3449-3473 | Every use of an argument, including the push-back of `-abc` as `-bc`, decreases the total length of what is left |
| CommandParserTheorems.RunRecords | include/private/__xpm/CLI11.hpp:3487-3644 | Results and missing arguments are exactly what the uses recorded, in order, each use in one place |
| CommandParserTheorems.ArgumentsAreRestored | include/private/__xpm/CLI11.hpp:3297-3303 | The tokens used, in order, are the arguments given: none is dropped, repeated or moved |
| CommandParserTheorems.Conservation | include/private/__xpm/CLI11.hpp:3449-3644 | Every argument that is not an option name, a subcommand name or an ending `--` adds exactly one result or one missing entry, and each flag of a cluster one more |
| CommandParserTheorems.FixedOptionsAreFilled | include/private/__xpm/CLI11.hpp:3597-3639 | In a completed run the name of an option that expects n values is followed by exactly that option's n values |
| JobIndex.ReduceKeepsValid | app/src/reducer.js:95-134 | After any action the list enumerates the keys of the job map, each once, sorted by status and identifier |
| JobIndex.OrderedIsUnique | app/src/reducer.js:73-93 | The sorted list of given identifiers is unique, whatever the sorting algorithm |
| JobIndex.AddsCommute | app/src/reducer.js:115-121 | Additions of different jobs commute |
| JobIndex.UpdateShows | app/src/reducer.js:123-129 | An update gives a known job the patched status and details, keeps what the patch is silent about, and adds no job |
| JobIndex.DisplayOrder | app/src/reducer.js:73-93 | Running jobs come first, then those in error or waiting, then the ready ones, finished ones last; within each group identifiers are in order |
| JobIndex.RefreshIsConfluent | app/src/reducer.js:95-134 | Cleaning and re-adding the jobs gives the same state whatever was shown before and in whatever order they come |
| JobIndex.Store.Dispatch | app/src/reducer.js:95-134 | The draft updated in place is the specified new state and agrees with its index |
| JobIndex.Store.DispatchAll | app/src/reducer.js:95-134 | The same over any sequence of actions |
| AuxiliaryFiles.AuxiliaryFilesAreFresh | src/commandline.cpp:436-441 | Over any sequence of calls with any mix of prefixes and suffixes, no path is returned twice |
| AuxiliaryFiles.FileNameIsInjective | src/commandline.cpp:436-441 | A file name determines the count and the rest, although counts are padded to two digits only |
| AuxiliaryFiles.FirstAuxiliaryFile | src/commandline.cpp:436-441 | The first file of a kind is number 01 in the folder, named after context, prefix and suffix |
| AuxiliaryFiles.CommandContext.GetAuxiliaryFile | src/commandline.cpp:436-441 | Increments the count of the reference and names the file after it |
| AuxiliaryFiles.CommandContext.GetAll | src/commandline.cpp:436-441 | The paths of a sequence of calls on one context are distinct |
| CommandJson.LineComesBack | src/commandline.cpp:334-361 | A command line written and loaded comes back if and only if its paths are local and it is not one single empty command |
| CommandJson.ComponentComesBack | src/commandline.cpp:286-307 | A component comes back unless it is a path on a share |
| CommandJson.CommandObject.Load | src/commandline.cpp:286-307 | The loop appends exactly the components before the first one that cannot be read, which are all of them if it succeeds |
| ScopedLookup.Workspace.FindKey | src/workspace.cpp:733-750 | The loop over dots computes the specified search |
| ScopedLookup.FindResolves | src/workspace.cpp:733-750 | For a key whose first component is not empty the result is the binding of the last name in the longest enclosing namespace that has one, else the bare name, else nothing |
| ScopedLookup.KeyHasComponents | src/workspace.cpp:733-750 | Every key is the qualified name of dot-free components, so the specification covers every key |
| ScopedLookup.FindIsEndless | src/workspace.cpp:733-750 | The search never ends if and only if the key starts with a dot and no enclosing namespace binds the name |
| ScopedLookup.EndlessNeverStops | src/workspace.cpp:733-750 | In that case every round of the loop looks at a dot and finds no binding |
| ScopedLookup.Workspace.SetThenFind | src/workspace.cpp:729-731 | A value set in a namespace is the one found there |
| TypeOrder.AcceptsLoop | src/type.cpp:195-205 | The loop up the parents computes acceptance |
| TypeOrder.AboveIsTransitive | src/type.cpp:195-205 | Without the any and the cast rules acceptance is transitive |
| TypeOrder.AboveIsAntisymmetric | src/type.cpp:195-205 | Two types that accept each other in that way are one |
| TypeOrder.BaseTypesAccept | src/type.cpp:195-205 | Among the base types each accepts itself, and besides only real accepts integer, not the other way round |
| TypeOrder.CastBreaksTransitivity | src/type.cpp:195-205 | With the cast from integers to reals acceptance is not transitive |
| TypeOrder.ArraysAreCovariant | src/type.cpp:225-230 | An array type accepts another if and only if its component type is the other's or one of its ancestors: neither any nor the cast carries over |
| TypeOrder.LcaLoop | src/type.cpp:207-223 | The two loops compute the specification by chains |
| TypeOrder.LcaIsLeastIff | src/type.cpp:207-223 | With a common ancestor the result is the least common ancestor if and only if the second type is not a proper ancestor of the first |
| TypeOrder.LcaIsAny | src/type.cpp:207-223 | Without a common ancestor the result is any |
| TypeOrder.ElementIsAcceptedIff | src/xpm.cpp:504-507 | The component type computed for an array accepts the new element's type under exactly that condition |

## Left out

- Launching: killed scripts, crashes, stale locks and reuse of process numbers; the code has no recovery there. An exception thrown in a launcher is confined to it here; in the source `run` executes in a detached thread without a handler (`src/workspace.cpp:429-468`), so an escaping exception ends the whole process.
- Launching: the launchers are steps and not methods, because every file operation of one may interleave with all others. Process creation is one step, and the way waiting ends is chosen by the environment.
- Launching: the settings, variables, preprocessing commands, redirections and notification of a script are lines without effect on the marker files.
- Scheduling: exit signals and the exit mode, kills, listeners, timestamps and progress; destruction of dependencies and jobs.
- Scheduling: the objects are numbered entries in the tables of one class; one workspace; dependencies are added before submission, fewer than a `size_t` can count and each one once; the start check at the end of a submission belongs to its critical section.
- Scheduling: a failed dependency completes its dependent without setting it to ERROR, and a job may be requested more than once; both are in the model, and nothing stronger is claimed.
- Scheduling: the locks taken by an aborted start are given back after its critical section, outside the mutex (`src/workspace.cpp:436-455`); each of these releases is one atomic step that may come at any time, and races inside one of them are not modelled.
- SchedulerTheorems.NoLostWakeUp: only for runs in which the values asked fit beside uses and limits in 32 bits and each change of a limit meets the condition of LimitKeepsAwakeIff, because the statement fails when a limit is raised past a waiting dependency (RaisedLimitLosesWakeUp).
- SchedulerTheorems.RunningJobsStayWithinLimit: only for runs in which the values asked fit, because the 32-bit sum can wrap (AcquisitionIsExactIff, WrappedSumIsExceeded); the part about limits only if none is set below the use of its token (LimitsHoldIff, LoweredLimitIsExceeded).
- IdentifierChanges.IdentifierIsKeptIff: assumes that no two of the streams hashed collide, since SHA-1 is an arbitrary function here; that identifiers determine contents in general is false (IdentifiersCollide).
- Values: tags, the native objects behind maps, validation, YAML input, dependencies found in values, the job attached to a map.
- Values: the component type kept by an array is modelled by the type order alone, and is not part of the value.
- Identity.GenerateUnseen: on values and not on objects, since the digest of the whole tree is read while one of its nodes is being filled; sharing of nodes between several places is not captured.
- ValueObjects.Node.PushBack: the value must not already be part of the array; pushing an array into itself makes a cycle and the child recursions then do not end.
- ValueRoundTrip.RoundTrip: the round trip is through the JSON structure and not its text; types are compared by the registry's definition; conversion of integral reals beyond the range of a `long` and number formatting in casts are not modelled.
- Command parser: environment variables, configuration files, callbacks, required and excluded options, extras and help, which run after the loop; names match exactly, without the option to ignore case.
- Auxiliary files: counts are unbounded, the source's are 32-bit.
- Type descriptions, properties, the C interface, remote connectors, the server and its database, and the React components.
