# SightStalker: a verified model of managed runs

SightStalker drives one browser run at a time against a named session: it takes the lock of the
session's profile, launches a browser with the session's stored state, runs a plan, captures the new
state, gives everything back and records the run in a database. This project models that core in
Dafny and proves what it promises, for every input and with every step allowed to fail.

The parts, each in its own module:

- `RunSystem`: any number of runs over any profiles and sessions as an interleaved step system, with
  outsiders changing snapshot files and taking locks in between. Mutual exclusion, LIFO resource
  handling, and the provenance of the browser state each run starts from. `RunContinuity` says it
  about the files on disk: when a run finds the state its session left, and what it leaves.
- `ManagedContext` and `Executor`: one run as the source writes it, a context manager with fields
  that change and an executor around it. `RunEvents` names what both models record.
- `RunSimulation` and `RunAgreement`: for every job and fault pattern the step system reaches a run
  with the executor's own log and verdict.
- `FileTree`, `ContainedPaths`, `ArtifactStore`, `WriteOnce`, `Layout`: a file system tree with
  symbolic links, loops and links out of the root included; path containment; the write-once
  artifact store, alone and under interleaving; and the collision-free layout.
- `Rows`, `SessionHistory`: the tables with their constraints, the single transaction that records a
  run, and the stored latest snapshots over a history of runs.
- `ConfigProjection`, `RecordRows`, `StoredPaths`: records to rows and back, through the checks and
  the stripping of the model constructors (`ModelText`).
- `TokenRedaction`, `DeepRedaction`, `UrlRedaction`: redaction as string rewriting.
- `TraceCapture`, `Resolver`: the trace handle's life cycle and the resolution of run settings.
- `Text`: characters, stripping, splitting and joining.

A call into code outside the model (browser, operating system, database) is an input that says
whether it raises and what it returns. Three abstract functions are assumed to behave: the content
hash is injective, and the JSON codecs of browser states and of metadata round-trip. Each
assumption is a precondition (`Sound`, `Sane`) of the lemmas that use it.

Where the code and its own documentation differ, the model follows the code:

- `scan_no_symlinks` checks the target whatever `include_target` says, although its documentation
  makes that check conditional (`src/sightstalker/artifacts/paths.py:97-117`).
- An explicit MIME type that does not fit is rejected only after the file has been written
  (`src/sightstalker/artifacts/manager.py:118-146`). On a writable path `write_bytes` then leaves the
  file behind while raising; it keeps its all-or-nothing promise there if and only if no type was
  given or the given one fits.
- A trace handle documented to end in a terminal state stays active when storing the artifact's
  metadata fails (`src/sightstalker/diagnostics/tracing.py:98-101`), and can stop the native trace
  twice.
- The profile lock does not make each run start from the previous run's final state: the session is
  loaded before the lock is taken and committed after it is released
  (`src/sightstalker/ops/runs.py:308-312`, `:439`).

## Model

The last five rows read single definitions back and are there for the reader only.

| member | source | states |
|---|---|---|
| RunSystem.NextRun | src/sightstalker/sessions/manager.py:183-497 | one step of a run never changes what the run was asked to do, and takes the profile lock only when nobody holds it |
| RunSystem.LifecycleIsSafe | src/sightstalker/sessions/manager.py:223-497 | in every reachable state of any interleaving with faults anywhere: one holder per profile lock, an open context or runtime belongs to a run holding its lock, a finished run holds nothing, and each run's history is the canonical one |
| RunSystem.HeldLockRefuses | src/sightstalker/sessions/locks.py:95-118 | while a run holds a profile's lock, any other acquire fails and changes no lock |
| RunSystem.ExecKeepsLocks | src/sightstalker/sessions/locks.py:71-118 | the exclusion invariant and every run's own invariant hold after any sequence of actions |
| RunSystem.ReadVouched | src/sightstalker/sessions/state_store.py:184-201 | reading the reference a session was loaded with gives exactly the captured state of an earlier commit of that session, or fails, whatever was done to the file |
| RunContinuity.PriorStepExactly | src/sightstalker/sessions/manager.py:307-315 | in every reachable world: if the last commit of the session when the run was loaded captured a state, the run goes on with exactly that state if and only if its snapshot is on disk untouched, and is given up otherwise; without such a commit or without persistence it goes on with the empty state of its engine |
| RunSystem.StateHasProvenance | src/sightstalker/sessions/manager.py:237-259 | what reaches `new_context` is nothing, the empty state, or the state captured and committed by an earlier run of the same session; otherwise nothing is launched |
| RunSystem.StartsFromLatestIffNoOverlap | src/sightstalker/ops/runs.py:308-444 | with capturing on, a run's prior state is the session's latest final state if and only if no run of that session committed since it loaded the session |
| RunContinuity.UndisturbedRunCommits | src/sightstalker/ops/runs.py:284-444 | a fresh run on a free profile whose prior snapshot is on disk and whose steps all succeed commits, passes that snapshot's state on, frees the lock, writes exactly the snapshots it was asked for and becomes the session's latest |
| RunContinuity.SuccessorStartsFromIt | src/sightstalker/ops/runs.py:308-444 | the next run of the session, loaded after a smooth capturing run has committed, passes on exactly the state that run captured and commits in turn |
| RunContinuity.StepsWriteOnce | src/sightstalker/sessions/state_store.py:184-201 | over every interleaving a step of a run changes no existing file, adds only its own two snapshots, with the state it started from or captured, and sets a reference only together with the file it names |
| RunContinuity.RunsBelongToSessions | src/sightstalker/ops/runs.py:308-312 | every run uses the profile and the configuration of its session, in every reachable world |
| RunContinuity.ReleaseFreesExactly | src/sightstalker/sessions/locks.py:49-57 | a step of a run that holds its lock frees the profile if and only if it is the release and the release gets through |
| RunSystem.OverlapStartsStale | src/sightstalker/ops/runs.py:308-312 | a concrete interleaving of two runs: the first has committed its final state before the second takes the lock, and the second still starts empty |
| ManagedContext.ProfileLockHandle.Release | src/sightstalker/sessions/locks.py:49-57 | releasing is idempotent, frees the lock unless the lock file fails to, and surfaces only exceptions that are not ordinary |
| ManagedContext.Acquire | src/sightstalker/sessions/locks.py:78-118 | a handle is returned exactly when nothing raises and nobody holds the profile's lock |
| ManagedContext.ManagedSessionContext.Enter | src/sightstalker/sessions/manager.py:183-281 | either everything is open and the running record is set, or the first failing step's exception is raised and whatever had been opened is closed again and the lock released |
| ManagedContext.ManagedSessionContext.TryEnter | src/sightstalker/sessions/manager.py:223-276 | the guarded steps stop at the first that raises, with exactly the resources of the steps before it open |
| ManagedContext.ManagedSessionContext.EnterFailureCleanup | src/sightstalker/sessions/manager.py:479-497 | context, runtime and lock are each given back once, in that order, whatever they raise |
| ManagedContext.ManagedSessionContext.CaptureAndRecordFinalState | src/sightstalker/sessions/manager.py:420-442 | a final snapshot is recorded exactly when capturing is on and succeeds |
| ManagedContext.ManagedSessionContext.CloseContext | src/sightstalker/sessions/manager.py:444-456 | the close is attempted once and recorded as done even when it raises |
| ManagedContext.ManagedSessionContext.CleanUp | src/sightstalker/sessions/manager.py:338-414 | the four steps of the exit all happen; the messages are those of the failed steps in order and the first failure is remembered |
| ManagedContext.ManagedSessionContext.Exit | src/sightstalker/sessions/manager.py:287-414 | the whole state after the exit: terminal record, result, updated session, lock, log, and what is raised |
| ManagedContext.SucceededExactly | src/sightstalker/sessions/manager.py:338-414 | a run is recorded as succeeded if and only if the caller raised nothing, a wanted capture was written, both closes succeeded and the release surfaced nothing; a failed record always names an error |
| ManagedContext.StepsOfExit | src/sightstalker/sessions/manager.py:338-364 | which exceptions the four exit steps count with, the release only with exceptions that are not ordinary |
| ManagedContext.RaisedAreTheFailedSteps | src/sightstalker/sessions/manager.py:338-364 | the collected exceptions are those of exactly the failed steps, in order |
| ManagedContext.CleanupErrorsAreExact | src/sightstalker/sessions/manager.py:503-530 | the cleanup errors on record describe what exactly the failed steps raised, in order, and are absent when none failed; the recorded error is the caller's exception, else the first failure; each text is class name and message with its token matches replaced and nothing else changed |
| ManagedContext.PlainDescription | src/sightstalker/security/redaction.py:164-175 | an exception text without a token is recorded exactly as class name and message |
| ManagedContext.MetadataKeepsRequest | src/sightstalker/sessions/manager.py:324-328 | the recorded metadata is the request's but for two reserved keys, of which the timeout always wins |
| ManagedContext.FailedEnterClosesEverything | src/sightstalker/sessions/manager.py:277-281 | however far entering got, its log opens and closes in stack order and ends with nothing open |
| ManagedContext.CompleteRunClosesEverything | src/sightstalker/sessions/manager.py:338-497 | for every fault pattern, a complete run's log opens and closes in stack order and ends with nothing open |
| Executor.RunSurface.Navigate | src/sightstalker/ops/surface.py:45-49 | the first navigation reaches the page, every later one is refused without reaching it |
| Executor.RunPlan | src/sightstalker/ops/surface.py:45-49 | of any sequence of attempted navigations exactly the first reaches the page |
| Executor.InitializeAll | src/sightstalker/ops/initializers.py:87-89 | initializers are awaited in order up to and including the first that raises, whose exception comes out |
| Executor.ExecuteManagedRun | src/sightstalker/ops/runs.py:284-475 | for every fault pattern, the unguarded building of the diagnostic target included: nothing is entered unless everything before succeeded, a page is loaded exactly when the plan runs and navigates, the log is `ExecutorLog`, the record and the raised error are as the phase functions say, and what is returned is the executor's own fields updated with the plan's sanitised output |
| Executor.BeforeErrorClass | src/sightstalker/ops/runs.py:308-362 | the class and text of every error raised before the context is entered, for every kind of exception |
| Executor.RunErrorClass | src/sightstalker/ops/runs.py:398-444 | the class and text of every error raised after it: an initializer's ordinary exception becomes a usage error, the plan's a browser error, the transaction's a persistence failure, and the exit's first failure comes out as it is |
| Executor.OutputIsSafe | src/sightstalker/ops/runs.py:164-187 | what the caller receives under a name: the plan's last value of that name with every text in it sanitised, at any depth, and everything else in it as it was; else the executor's own field |
| Executor.WorkIsOrdered | src/sightstalker/ops/runs.py:382-397 | the initializers that run are a prefix in order and the plan runs if and only if all of them succeeded |
| Executor.TransactionExactly | src/sightstalker/ops/runs.py:398-444 | the metadata transaction is opened if and only if initializers, plan and every exit step succeeded and the output is JSON safe |
| Executor.NoErrorExactly | src/sightstalker/ops/runs.py:402-475 | the caller sees no error if and only if the transaction was opened and committed; then the run is recorded as succeeded, and a run recorded as failed always raises |
| Executor.CleanupFailureIsRaw | src/sightstalker/ops/runs.py:400-407 | after a successful plan the first failure of the exit is raised as it is |
| Executor.SafeExactlyJson | src/sightstalker/ops/runs.py:150-161 | the JSON-safety check accepts exactly the values that some JSON document denotes |
| RunAgreement.ExecutorLogIsReached | src/sightstalker/ops/runs.py:284-444 | for every job, lock state and fault pattern there are actions from an initial world after which a run of the step system has exactly the executor's log, and is committed if and only if the executor returns normally |
| RunSimulation.SoloPlays | src/sightstalker/sessions/manager.py:183-497 | for every sequence of step inputs, a run alone in its world has after each step the phase, resources and log that the phase table alone predicts |
| RunAgreement.VerdictsAgree | src/sightstalker/sessions/manager.py:338-414 | with the same faults, the step system goes on to the transaction if and only if the context manager records success |
| ContainedPaths.ScanMeaning | src/sightstalker/artifacts/paths.py:97-117 | the symlink scan passes if and only if no component below the root is a link (and, for artifacts, no parent is a file) |
| ContainedPaths.ResolveExact | src/sightstalker/artifacts/paths.py:119-133 | on every tree, resolving returns exactly for plain components without a link below the root, and then the root joined with them, link-free; for both path classes |
| ContainedPaths.RelativeInverts | src/sightstalker/artifacts/paths.py:135-152 | `relative_to_data_dir` inverts both resolvers |
| ContainedPaths.RelativeExact | src/sightstalker/artifacts/paths.py:135-152 | for arguments without dots or NUL, both classes return exactly for a path below the root with no link, and for artifacts no file, on the way, and then its components below the root |
| ContainedPaths.RelativeIsContained | src/sightstalker/sessions/paths.py:107-126 | for every argument, what comes back joined to the root is where the argument resolves to, inside the root and link-free |
| ContainedPaths.ArtifactPaths.ScanNoSymlinks | src/sightstalker/artifacts/paths.py:97-117 | the scan loop computes the scan relation |
| ContainedPaths.ArtifactPaths.ResolveRelativePath | src/sightstalker/artifacts/paths.py:119-133 | the method computes the relation `ResolveExact` characterises |
| ContainedPaths.ArtifactPaths.MakeMissing | src/sightstalker/artifacts/paths.py:158-189 | creating missing directories only adds directories on the path, never through a link, and succeeds when only directories are in the way |
| ContainedPaths.SessionPaths.ResolveRelativePath | src/sightstalker/sessions/paths.py:128-145 | the method computes the session resolver's relation |
| FileTree.ResolveIsPhysical | src/sightstalker/artifacts/paths.py:39-46 | a resolution that does not raise ends at a path without links, dots or NUL, and is a fixed point |
| FileTree.ResolveEquations | src/sightstalker/artifacts/paths.py:39-46 | resolution by its equations, on every tree: a link-free path stays, dots are dropped or take the parent, a link is replaced by its target, seen from its own directory or from the top, and a NUL raises |
| ArtifactStore.InferMime | src/sightstalker/artifacts/mime.py:81-113 | a MIME type is found if and only if none was given or the given one fits; then it is the given one, or the one of the suffix where that fits, or the default |
| ArtifactStore.CompatibleExactly | src/sightstalker/artifacts/mime.py:77-78 | the types each kind of artifact may have, and its default |
| ArtifactStore.ArtifactManager.ExclusiveWrite | src/sightstalker/artifacts/manager.py:205-254 | the file is complete or the tree is as before, unless even the removal of the partial file fails; an existing file is never touched |
| ArtifactStore.ArtifactManager.WriteBytes | src/sightstalker/artifacts/manager.py:108-146 | a returned reference is to a complete file that reads back; with an acceptable MIME type an error leaves every file as it was unless the unlink fails; on a writable faultless path the call succeeds, and either returns a reference or leaves the files alone, if and only if the MIME type is absent or fits |
| ArtifactStore.LateRejectionLeavesFile | src/sightstalker/artifacts/manager.py:118-146 | a screenshot written as `text/plain` into an empty directory raises and its file stays |
| ArtifactStore.WrittenReadsBack | src/sightstalker/artifacts/manager.py:260-293 | after a completed write no check of the reader can fail |
| ArtifactStore.ArtifactManager.ReadBytes | src/sightstalker/artifacts/manager.py:260-293 | only bytes of the recorded size and hash are returned |
| WriteOnce.RunKeepsInv | src/sightstalker/artifacts/manager.py:205-254 | the store invariant holds over every interleaving of writers, with faults anywhere |
| WriteOnce.SettledFilesNeverChange | src/sightstalker/artifacts/manager.py:205-254 | a file nobody is still writing keeps its name and bytes through every continuation |
| WriteOnce.WriteOnceStore | src/sightstalker/artifacts/manager.py:108-146 | every returned reference reads back its writer's bytes now and forever, and no path has two |
| WriteOnce.OnlyOwnPartialRemoved | src/sightstalker/artifacts/manager.py:229-254 | a name is only ever removed by a failing writer, and it is its own file |
| WriteOnce.UnlinkRemovesPartial | src/sightstalker/artifacts/manager.py:229-254 | the unlink of a failing writer removes its partial file and nothing else, exactly when the call gets through |
| WriteOnce.UndisturbedWriterReturns | src/sightstalker/artifacts/manager.py:205-254 | a writer that nobody is in the way of returns a reference that reads back, however its writes are split, exactly when they make up the payload |
| Layout.GeneratedIdsMatch | src/sightstalker/ids.py:41-92 | for every requested prefix the generated artifact id, and every run id, matches the accepted pattern |
| Layout.IdFormExactly | src/sightstalker/models/identifiers.py:19-52 | the accepted ids, by their parts |
| Layout.CollapseExactly | src/sightstalker/ids.py:41-62 | safe characters of a prefix are kept and each run of others becomes one underscore |
| Layout.SafePrefixIsKept | src/sightstalker/ids.py:41-62 | a prefix that is already safe is used as it is, cut to 16 characters |
| Layout.FreshHexFreshId | src/sightstalker/ids.py:79-92 | different random digits give different artifact ids and run ids |
| Layout.PathRoundTrip | src/sightstalker/diagnostics/paths.py:31-73 | profile, run, type, artifact id and suffix are recovered from any built path |
| Layout.PathsAsText | src/sightstalker/sessions/paths.py:65-87 | the text of every built path |
| Layout.LayoutInjective | src/sightstalker/sessions/paths.py:65-87 | different items never share a path |
| Layout.FreshPathsAreFree | src/sightstalker/sessions/ids.py:81-103 | with a fresh run or artifact id no write hits a path that is taken |
| Layout.BuiltPathsAreSafe | src/sightstalker/artifacts/paths.py:69-91 | every built path passes `assert_safe_relative_path` unchanged |
| Rows.InsertArtifactExactly | src/sightstalker/persistence/models.py:166-199 | checking the new row only is right: an artifact insert is accepted if and only if the key is free and every constraint of the whole database holds afterwards |
| Rows.RowInvExactly | src/sightstalker/persistence/models.py:54-227 | the single-row checks, taken over all tables, amount to the declared checks, keys and uniqueness |
| Rows.InsertRunExactly | src/sightstalker/persistence/models.py:104-128 | the same for runs |
| Rows.InsertContextExactly | src/sightstalker/persistence/models.py:131-163 | the same for browser contexts |
| Rows.SetLatestExactly | src/sightstalker/persistence/repositories.py:203-221 | setting a session's latest references is accepted if and only if every constraint holds afterwards |
| Rows.Database.PersistRun | src/sightstalker/ops/runs.py:190-249 | the transaction is all or nothing, commits exactly when no constraint and no step fails, and then the rows show the run column by column and every constraint holds |
| Rows.RecordedShows | src/sightstalker/persistence/serialization.py:680-689 | a recorded run's rows, column by column: each snapshot under its own name with session, run and order, the context with both references, the session's latest, and every other row unchanged |
| Rows.RecordingKeepsRowInv | src/sightstalker/ops/runs.py:206-249 | a committed transaction keeps every constraint of every table |
| Rows.RecordedExactly | src/sightstalker/ops/runs.py:206-249 | no constraint is violated if and only if session, ids, orders and context references are as stated, and then the tables hold exactly the old rows and the run's |
| Rows.FreshRunIsRecorded | src/sightstalker/ops/runs.py:65-67 | with fresh ids and distinct diagnostic orders between those of the snapshots no constraint is violated |
| Rows.ListingIsUnique | src/sightstalker/persistence/repositories.py:247-258 | the artifacts of a run have one listing: creation time and id never decide |
| Rows.RecordedRunLists | src/sightstalker/persistence/repositories.py:247-273 | the rehydrated run lists the initial snapshot, the diagnostics by their orders, the final snapshot; the in-memory artifacts are a subsequence of it |
| SessionHistory.StoredIsLast | src/sightstalker/persistence/repositories.py:203-221 | the stored latest references are always the last committed run's, None included |
| SessionHistory.MemoryKeepsLastWritten | src/sightstalker/sessions/manager.py:532-540 | the fold of `updated_session` keeps the snapshot of the last run that wrote one |
| SessionHistory.AgreeExactly | src/sightstalker/ops/runs.py:238-242 | rows and fold agree after a history if and only if for each snapshot the last run wrote one or there never was one |
| SessionHistory.FreshSessionAgrees | src/sightstalker/ops/runs.py:190-249 | for a session created without snapshots under an unchanged configuration they agree, and the stored final reference is the last run's |
| SessionHistory.CaptureOffForgets | src/sightstalker/persistence/repositories.py:203-221 | a session with a final snapshot and one run with capture off loses it in its row and keeps it in memory |
| SessionHistory.CaptureOffForgetsHere | src/sightstalker/ops/runs.py:238-242 | that case at one concrete database and run |
| SessionHistory.CommittedHolds | src/sightstalker/sessions/manager.py:338-383 | what a successful exit returns for the transaction holds each snapshot if and only if the configuration asks for it |
| ConfigProjection.LoadOfProject | src/sightstalker/persistence/serialization.py:469-571 | loading what was stored of an accepted configuration passes every constructor check, never fails and forgets at most the fingerprint's user agent |
| ConfigProjection.ConstructSettles | src/sightstalker/models/browser.py:30-167 | constructing again what the constructors let exist changes and refuses nothing |
| ConfigProjection.ConstructedIsClipped | src/sightstalker/models/base.py:27-34 | every text of a constructed configuration is stripped |
| ConfigProjection.BoundsExactly | src/sightstalker/models/browser.py:111-156 | changing one number of a constructed configuration keeps it constructible exactly inside the declared bounds |
| ConfigProjection.ChoicesExactly | src/sightstalker/models/browser.py:27-54 | the same for a viewport, a user agent and an environment profile id |
| ConfigProjection.FirstOffenceIsNamed | src/sightstalker/persistence/serialization.py:300-343 | a refusal names the first of the secrets and local paths the configuration has, and nothing is refused without one |
| ConfigProjection.RebuildDefaults | src/sightstalker/persistence/serialization.py:469-571 | what an empty stored object stands for |
| ConfigProjection.AnyConfigSettles | src/sightstalker/persistence/serialization.py:469-571 | whatever wrote the stored object: what loads can be stored again if and only if no header name is sensitive, and from then on loading and storing change nothing |
| ConfigProjection.RoundTripExactly | src/sightstalker/persistence/serialization.py:289-398 | the round trip is the identity if and only if there is no fingerprint user agent |
| ConfigProjection.ProjectOfLoad | src/sightstalker/persistence/serialization.py:406-432 | projecting what was loaded gives the same projection, for every accepted configuration |
| ConfigProjection.ProjectionIsInjective | src/sightstalker/persistence/serialization.py:289-398 | two accepted configurations share a projection if and only if they differ at most in that user agent |
| RecordRows.RunResave | src/sightstalker/persistence/serialization.py:625-665 | loading a stored run gives the record redacted, and storing it again writes the same values |
| RecordRows.AnyRunRowSettles | src/sightstalker/persistence/repositories.py:299-309 | whatever wrote a row, after one load and save every further load and save writes the same values |
| RecordRows.StoredRunIsClean | src/sightstalker/persistence/serialization.py:611-646 | stored metadata is clean, the stored message is in normal form, and a stored URL has no credentials |
| RecordRows.RefusedExactly | src/sightstalker/persistence/serialization.py:611-665 | a run is refused exactly when its start URL carries credentials or its redacted metadata has no JSON form, a row exactly when its metadata does not decode |
| RecordRows.HealthResave | src/sightstalker/persistence/serialization.py:718-742 | redacting the reason once, twice or three times stores the same, namely the reason with its token matches replaced, a reason without tokens as it is; and a loaded record is stored unchanged |
| StoredPaths.ArtifactPathRoundTrip | src/sightstalker/persistence/serialization.py:140-157 | the row accepts exactly the paths the artifact layer accepts and gives them back unchanged |
| StoredPaths.ProfileDirRoundTrip | src/sightstalker/persistence/serialization.py:160-187 | the directory a row gives back is the one that was stored, inside the data directory |
| StoredPaths.ProfileDirAccepted | src/sightstalker/persistence/serialization.py:160-187 | a profile directory is accepted exactly when it holds no NUL and resolves into the data directory or is relative without dots |
| StoredPaths.ProfileDirResave | src/sightstalker/persistence/serialization.py:160-187 | storing a loaded profile directory stores the same text while no link is added below the root |
| TokenRedaction.ScannerSound | src/sightstalker/security/redaction.py:72-78 | what the scanner finds at a position is a match of the pattern |
| TokenRedaction.ScannerComplete | src/sightstalker/security/redaction.py:72-78 | if any match starts at a position the scanner finds one, with the greedy extents |
| TokenRedaction.RedactedIsNormal | src/sightstalker/security/redaction.py:103-113 | for every string the redacted string contains no match of the pattern |
| TokenRedaction.RedactFixesNormalForms | src/sightstalker/security/redaction.py:103-113 | a string is left alone if and only if it contains no match, so redaction is idempotent |
| TokenRedaction.KeepsEverythingElse | src/sightstalker/security/redaction.py:103-113 | the output is the input with disjoint leftmost matches replaced and everything between them kept in order |
| TokenRedaction.RedactedExactly | src/sightstalker/security/redaction.py:103-113 | the output is the only text that is the input with its leftmost, longest matches replaced |
| TokenRedaction.KeyExactly | src/sightstalker/security/redaction.py:72-78 | the keys of the pattern, in letters of either case |
| TokenRedaction.RedactedTrimmed | src/sightstalker/security/redaction.py:103-113 | a stripped string stays stripped |
| DeepRedaction.RedactMapping | src/sightstalker/security/redaction.py:142-156 | the loop over a mapping, in any key order, computes the deep redaction |
| DeepRedaction.RedactValue | src/sightstalker/security/redaction.py:121-139 | dispatch on the value and the loop over sequences compute the deep redaction |
| DeepRedaction.RedactedIsClean | src/sightstalker/security/redaction.py:121-156 | every string leaf has its matches replaced and is in normal form, every sensitive key holds the marker, and keys and shape of the rest are kept |
| DeepRedaction.SensitiveExactly | src/sightstalker/security/redaction.py:86-95 | which keys are sensitive: those that spell a listed name, in any case, with white space around it, and in a field name with dashes for underscores |
| DeepRedaction.SensitiveKeysHoldMarker | src/sightstalker/security/redaction.py:142-156 | what a caller finds under each key of a redacted mapping |
| DeepRedaction.RedactionIsIdempotent | src/sightstalker/diagnostics/health.py:39-81 | a value is left alone if and only if it is clean, so redacting twice is redacting once |
| DeepRedaction.LogRecord.Patch | src/sightstalker/security/redaction.py:183-204 | the log hook redacts message and extra in place and nothing else |
| UrlRedaction.RedactUrls | src/sightstalker/resilience/operator_redaction.py:124-140 | the loop over the tokens computes the URL redaction |
| UrlRedaction.EmbeddedUrlsAreSafe | src/sightstalker/resilience/operator_redaction.py:124-140 | for every string the token count is kept, no userinfo but the marker is left, and a second pass changes nothing |
| UrlRedaction.TokensKeepTheRest | src/sightstalker/resilience/operator_redaction.py:130-140 | a token with a scheme and a later at sign keeps its scheme and everything from its last at sign on; only what is between them is replaced |
| UrlRedaction.OtherTokensAreCopied | src/sightstalker/resilience/operator_redaction.py:130-140 | every other token is copied |
| UrlRedaction.UntouchedTokens | src/sightstalker/resilience/operator_redaction.py:124-140 | a token is left alone if and only if it has no userinfo to hide |
| TraceCapture.TraceCaptureHandle.Stop | src/sightstalker/diagnostics/tracing.py:58-102 | one stop as a transition of state, native stops and writes, when it returns normally, and what it raises in every other case |
| TraceCapture.TraceCaptureHandle.Discard | src/sightstalker/diagnostics/tracing.py:104-125 | one discard as such a transition; outside the active state it does nothing; and what it raises |
| TraceCapture.StopsTwiceExactly | src/sightstalker/diagnostics/tracing.py:58-125 | a call sequence stops the native trace more than once if and only if the first call that reaches it leaves the handle active and another call reaches it |
| TraceCapture.StopsAreBounded | src/sightstalker/diagnostics/tracing.py:58-125 | over every call sequence all native stops but one are such calls, and writes never exceed stops |
| TraceCapture.TerminalIsFinal | src/sightstalker/diagnostics/tracing.py:104-116 | once terminal, nothing is stopped or written again |
| TraceCapture.OrdinaryCallsStopOnce | src/sightstalker/diagnostics/tracing.py:58-125 | with ordinary exceptions and metadata persistence off: at most one native stop, at most one artifact, active exactly until then |
| TraceCapture.PersistFailureStopsTwice | src/sightstalker/diagnostics/tracing.py:98-101 | with persistence on, a failing store leads to a second native stop and a second artifact |
| Resolver.Collect | src/sightstalker/environment/resolver.py:100-122 | the loop over field names gathers exactly the fields that are set |
| Resolver.Apply | src/sightstalker/environment/applicators.py:30-42 | the marker names the profile, every field the profile sets has the profile's value, and every other field is the base's |
| Resolver.Resolve | src/sightstalker/environment/resolver.py:70-145 | the stepwise resolver computes the resolution the lemmas below describe |
| Resolver.SelectionExactly | src/sightstalker/environment/selectors.py:66-85 | the run's selection, if it names a profile, wins over the session's own; resolving fails exactly when the profile selected that way is not stored |
| Resolver.ContextPrecedence | src/sightstalker/environment/resolver.py:78-132 | every context field is the first that is set of run override, profile, session |
| Resolver.MarkerNamesProfile | src/sightstalker/environment/applicators.py:41-42 | the provenance marker names the selected profile and is left alone without one |
| Resolver.AppliedExactly | src/sightstalker/environment/resolver.py:134-145 | the applied fields are sorted, without repetition, and exactly those the profile sets and no override replaces |
| Resolver.NormalizeExactly | src/sightstalker/ops/runs.py:87-121 | the headed override conflicts if and only if a different mode is given; otherwise only the launch mode changes, and twice is once |
| Resolver.BranchesAgree | src/sightstalker/ops/runs.py:321-344 | with no profile selected and no other override, resolving and not resolving give the same configuration for every headed override |
| ManagedContext.CallerExceptionIsRecorded | src/sightstalker/sessions/manager.py:385-414 | a caller exception stays the recorded error whatever the cleanup does, and the exit does not replace it unless the run directory became unsafe |
| ManagedContext.LatestFinalMovesExactly | src/sightstalker/sessions/manager.py:532-556 | what the exit hands back: the snapshots in their places, the artifacts in order, and a session whose latest final state moves if and only if the run succeeded and captured one, to that one |
| ConfigProjection.AcceptedExactly | src/sightstalker/persistence/serialization.py:289-343 | a configuration is accepted if and only if it holds no secret and no local path |
| Resolver.LaunchPrecedence | src/sightstalker/environment/resolver.py:109-127 | every launch field is the run override if set, else the session's |
| TraceCapture.StaysActiveExactly | src/sightstalker/diagnostics/tracing.py:74-101 | a call stops the native trace and leaves the handle active if and only if an exception that is not ordinary gets out or storing the metadata fails |

## Left out

- RunSystem.StateHasProvenance: covers sessions created without references, and abstracts the reader's checks to size, hash and codec; the path checks in front of them are in `ContainedPaths` and `ArtifactStore`.
- RunSystem.LifecycleIsSafe: treats acquiring the lock and storing its handle as one step, because a cancellation between the two (`src/sightstalker/sessions/manager.py:227-229`) is inside `asyncio.to_thread`.
- ManagedContext.ManagedSessionContext.Exit: writes the success and the caller-exception handler as one method, since they differ only in which error is recorded and raised; exceptions that define their own truth value are not modelled.
- Executor.ExecuteManagedRun: the fields the executor reports itself, and the function that sanitises a text, are parameters.
- ConfigProjection.LoadOfProject: conversions of wrongly typed values are abstract functions that leave values of the right type alone, and the names of stored fields are an enumeration.
- UrlRedaction.EmbeddedUrlsAreSafe: is about this stage only; the whole `sanitize_operator_message` pipeline, with its truncation, query-string and title stages, is left out.
- DeepRedaction.RedactedIsClean: `str.lower` is modelled as far as it can produce an ASCII letter.
- FileTree.ResolveIsPhysical: the kernel's limit of 40 links is not modelled; loops raise, as `Path.resolve()` did before Python 3.13. Later versions do not raise there, which changes no outcome of the resolvers: their symlink scan has already refused.
- ArtifactStore.ArtifactManager.WriteBytes: file permissions, fsync durability and the `mkdir` races behind `exist_ok` are not modelled.
- The browser adapters in `engines/`, and Playwright and Camoufox behind them: calls are steps that succeed or raise.
- The command line, its rendering, logging set-up, database migrations and configuration lookup.
- The internals of filelock, SQLAlchemy and tenacity: an exclusive lock, checks at flush and rollback are assumed; retries are not modelled.
- Error classification (`classify_exception`) and the error taxonomy beyond the classes the executor raises.
- Screenshot and console capture, and hardened temporary files: short sequences around the store that is modelled.
- Profile, session and health repositories beyond the row values: listing, archiving and lookups.
