/** One managed run: the context manager that holds the lock, the runtime and the context
    (sessions/manager.py) and the profile lock (sessions/locks.py).

    Every call that can raise takes what it raises, if anything, as an input. */
module ManagedContext {
  import opened Text
  import opened RunEvents
  import TokenRedaction

  /** How an exception is treated: project errors and other `Exception`s, the
      process-control ones (`KeyboardInterrupt`, `SystemExit`, `CancelledError`), and any
      other `BaseException`. */
  datatype Kind = Project | Ordinary | Control | Bare

  datatype Exc = Exc(kind: Kind, name: string, text: string)

  predicate IsException(e: Exc) { e.kind.Project? || e.kind.Ordinary? }

  function RedactException(e: Exc): string {
    TokenRedaction.RedactString(e.name + ": " + e.text)
  }

  function ValueError(text: string): Exc { Exc(Ordinary, "ValueError", text) }

  // ------------------------------------------------------------------
  // Profile locks
  // ------------------------------------------------------------------

  /** The lock files of all processes. */
  class LockTable {
    var held: set<nat>

    constructor ()
      ensures held == {}
    {
      held := {};
    }
  }

  /** What releasing the lock file does: it may raise, and it may leave the lock held. */
  datatype Unlock = Unlock(raised: Option<Exc>, stillHeld: bool)

  /** An ordinary exception from the lock file is swallowed; any other one surfaces. */
  function Surfaced(raised: Option<Exc>): Option<Exc> {
    if raised.Some? && (raised.value.kind.Control? || raised.value.kind.Bare?) then raised else None
  }

  class ProfileLockHandle {
    const profile: nat
    const table: LockTable
    var released: bool

    constructor (profile: nat, table: LockTable)
      ensures this.profile == profile && this.table == table && !released
    {
      this.profile := profile;
      this.table := table;
      released := false;
    }

    /** Idempotent: only the first call reaches the lock file. */
    method Release(out: Unlock) returns (raised: Option<Exc>)
      modifies this`released, table`held
      ensures released
      ensures old(released) ==> raised == None && table.held == old(table.held)
      ensures !old(released) ==>
                raised == Surfaced(out.raised)
                && table.held == if out.stillHeld then old(table.held) else old(table.held) - {profile}
    {
      if released { return None; }
      released := true;
      if !out.stillHeld { table.held := table.held - {profile}; }
      raised := out.raised;
      if raised.Some? && IsException(raised.value) { raised := None; }
    }
  }

  function LockUnavailable(): Exc { Exc(Ordinary, "ProfileLockUnavailable", "profile lock unavailable") }

  /** `ProfileLockManager.acquire`: a handle exactly when nothing raises and nobody holds it. */
  method Acquire(table: LockTable, profile: nat, fault: Option<Exc>) returns (handle: ProfileLockHandle?, raised: Option<Exc>)
    modifies table`held
    ensures raised == if fault.Some? then fault else if profile in old(table.held) then Some(LockUnavailable()) else None
    ensures raised.Some? ==> handle == null && table.held == old(table.held)
    ensures raised.None? ==>
              && handle != null && fresh(handle) && handle.profile == profile && handle.table == table
              && !handle.released && table.held == old(table.held) + {profile}
  {
    if fault.Some? { return null, fault; }
    if profile in table.held { return null, Some(LockUnavailable()); }
    table.held := table.held + {profile};
    handle := new ProfileLockHandle(profile, table);
    raised := None;
  }

  // ------------------------------------------------------------------
  // Records
  // ------------------------------------------------------------------

  datatype ArtifactRef = ArtifactRef(id: string)

  datatype Config = Config(
    persist: bool, captureInitial: bool, captureFinal: bool, userDataDir: bool, fingerprint: bool)

  datatype Session = Session(
    id: nat, profile: nat, config: Config, latestInitial: Option<ArtifactRef>, latestFinal: Option<ArtifactRef>)

  /** What `open_context` was given: the ids of the profile and of the request's session,
      whether all ids are well formed and the profile directory is the expected one, and the
      request's metadata and timeout. */
  datatype Job = Job(
    session: Session, profile: nat, requestSession: nat, idsValid: bool, profileDirMatches: bool,
    metadata: map<string, Meta>, timeout: nat)

  datatype Meta = Given(content: string) | Timeout(milliseconds: nat) | Errors(messages: seq<string>)

  datatype Status = Running | Succeeded | Failed

  datatype RunRecord = RunRecord(
    status: Status, errorType: Option<string>, errorMessage: Option<string>,
    artifacts: seq<ArtifactRef>, metadata: map<string, Meta>)

  datatype ContextRecord = ContextRecord(initial: Option<ArtifactRef>, final: Option<ArtifactRef>, closed: bool)

  datatype LifecycleResult = LifecycleResult(
    run: RunRecord, context: Option<ContextRecord>, updatedSession: Session,
    initial: Option<ArtifactRef>, final: Option<ArtifactRef>)

  const TIMEOUT_KEY := "_sightstalker_request_timeout_ms"
  const CLEANUP_ERRORS_KEY := "_sightstalker_cleanup_errors"

  function BuildMetadata(job: Job): map<string, Meta> { job.metadata[TIMEOUT_KEY := Timeout(job.timeout)] }

  function Collected(initial: Option<ArtifactRef>, final: Option<ArtifactRef>): seq<ArtifactRef> {
    (if initial.Some? then [initial.value] else []) + (if final.Some? then [final.value] else [])
  }

  function Messages(errors: seq<Exc>): seq<string> {
    seq(|errors|, i requires 0 <= i < |errors| =>
      TokenRedaction.RedactString(errors[i].name + ": " + errors[i].text))
  }

  function TerminalRecord(
    job: Job, initial: Option<ArtifactRef>, final: Option<ArtifactRef>, status: Status, error: Option<Exc>,
    cleanupErrors: seq<string>): RunRecord
  {
    RunRecord(
      status,
      if error.Some? then Some(error.value.name) else None,
      if error.Some? then Some(RedactException(error.value)) else None,
      Collected(initial, final),
      if cleanupErrors == [] then BuildMetadata(job)
      else BuildMetadata(job)[CLEANUP_ERRORS_KEY := Errors(cleanupErrors)])
  }

  function UpdatedSession(
    session: Session, initial: Option<ArtifactRef>, final: Option<ArtifactRef>, advanceFinal: bool): Session
  {
    session.(latestInitial := if initial.Some? then initial else session.latestInitial,
             latestFinal := if advanceFinal && final.Some? then final else session.latestFinal)
  }

  // ------------------------------------------------------------------
  // Entering
  // ------------------------------------------------------------------

  /** What each awaited call of `__aenter__` raises, if anything. */
  datatype EnterFaults = EnterFaults(
    profileLayout: Option<Exc>, acquire: Option<Exc>, runLayout: Option<Exc>, prior: Option<Exc>,
    initialWrite: Option<Exc>, launch: Option<Exc>, context: Option<Exc>, records: Option<Exc>)

  datatype CleanupFaults = CleanupFaults(context: Option<Exc>, runtime: Option<Exc>, release: Unlock)

  predicate Acceptable(job: Job) {
    && job.profile == job.session.profile && job.requestSession == job.session.id && job.idsValid
    && !job.session.config.userDataDir && !job.session.config.fingerprint && job.profileDirMatches
  }

  predicate WritesInitial(config: Config) { config.persist && config.captureInitial }

  predicate WritesFinal(config: Config) { config.persist && config.captureFinal }

  /** The guarded steps of `__aenter__` in order, each with what it raises. */
  function EnterSteps(config: Config, free: bool, f: EnterFaults): (steps: seq<Option<Exc>>)
    ensures |steps| == 8
  {
    [f.profileLayout,
     if f.acquire.Some? then f.acquire
     else if !free then Some(Exc(Ordinary, "ProfileLockUnavailable", "profile lock unavailable")) else None,
     f.runLayout, f.prior, if config.persist && config.captureInitial then f.initialWrite else None,
     f.launch, f.context, f.records]
  }

  /** The first step that raises, or the number of steps. */
  function FirstFailure(steps: seq<Option<Exc>>): (k: nat)
    ensures k <= |steps| && forall i :: 0 <= i < k ==> steps[i].None?
    ensures k < |steps| ==> steps[k].Some?
  {
    if steps == [] || steps[0].Some? then 0 else 1 + FirstFailure(steps[1..])
  }

  /** What was opened before step `k`, and what the cleanup then closes. */
  function Opening(k: nat): seq<Event> {
    (if k > 1 then [Acquired] else []) + (if k > 5 then [Launched] else []) + (if k > 6 then [Opened] else [])
  }

  function CleaningUp(k: nat): seq<Event> {
    (if k > 6 then [ContextClosed] else []) + (if k > 5 then [RuntimeClosed] else [])
    + (if k > 1 then [Released] else [])
  }

  // ------------------------------------------------------------------
  // Leaving
  // ------------------------------------------------------------------

  datatype Capture = Wrote(ref: ArtifactRef) | NotWritten(error: Exc)

  /** What each step of `__aexit__` raises; `result` stands for the run directory no longer
      being a safe path when the result is built. */
  datatype ExitFaults = ExitFaults(
    capture: Capture, context: Option<Exc>, runtime: Option<Exc>, release: Unlock, result: Option<Exc>)

  function CaptureError(config: Config, f: ExitFaults): Option<Exc> {
    if config.persist && config.captureFinal && f.capture.NotWritten? then Some(f.capture.error) else None
  }

  function FinalRef(config: Config, f: ExitFaults): Option<ArtifactRef> {
    if config.persist && config.captureFinal && f.capture.Wrote? then Some(f.capture.ref) else None
  }

  /** The four steps of the exit in order, each with what it raises. */
  function ExitSteps(config: Config, f: ExitFaults): (steps: seq<Option<Exc>>)
    ensures |steps| == 4
  {
    [CaptureError(config, f), f.context, f.runtime, Surfaced(f.release.raised)]
  }

  /** What was raised, in order. */
  function Raised(steps: seq<Option<Exc>>): seq<Exc> {
    if steps == [] then [] else Raised(steps[..|steps| - 1]) + AsList(steps[|steps| - 1])
  }

  function AsList(e: Option<Exc>): seq<Exc> { if e.Some? then [e.value] else [] }

  function ExitEvents(config: Config): seq<Event> {
    (if config.persist && config.captureFinal then [Captured] else []) + [ContextClosed, RuntimeClosed, Released]
  }

  /** The record of an exit: the caller's exception comes first, then the first failed step. */
  function ExitRecord(job: Job, initial: Option<ArtifactRef>, caller: Option<Exc>, f: ExitFaults): RunRecord {
    var errors := Raised(ExitSteps(job.session.config, f));
    var error := if caller.Some? then caller else if errors != [] then Some(errors[0]) else None;
    RunRecord(
      if error.None? then Succeeded else Failed,
      if error.Some? then Some(error.value.name) else None,
      if error.Some? then Some(TokenRedaction.RedactString(error.value.name + ": " + error.value.text)) else None,
      Collected(initial, FinalRef(job.session.config, f)),
      if errors == [] then BuildMetadata(job) else BuildMetadata(job)[CLEANUP_ERRORS_KEY := Errors(Messages(errors))])
  }

  /** The initial snapshot an enter leaves, given the reference a write returns. */
  function InitialRef(config: Config, written: ArtifactRef): Option<ArtifactRef> {
    if config.persist && config.captureInitial then Some(written) else None
  }

  /** What the run hands back in memory. */
  function ExitResult(job: Job, initial: Option<ArtifactRef>, caller: Option<Exc>, f: ExitFaults): LifecycleResult {
    var record, final := ExitRecord(job, initial, caller, f), FinalRef(job.session.config, f);
    LifecycleResult(record, Some(ContextRecord(initial, final, true)),
                    job.session.(
                      latestInitial := if initial.Some? then initial else job.session.latestInitial,
                      latestFinal := if final.Some? && record.status.Succeeded? then final else job.session.latestFinal),
                    initial, final)
  }

  function ExitRaises(job: Job, caller: Option<Exc>, f: ExitFaults): Option<Exc> {
    var errors := Raised(ExitSteps(job.session.config, f));
    if f.result.Some? then f.result else if caller.None? && errors != [] then Some(errors[0]) else None
  }

  class Trace {
    var log: seq<Event>

    constructor ()
      ensures log == []
    {
      log := [];
    }
  }

  class ManagedSessionContext {
    const job: Job
    const table: LockTable
    const trace: Trace
    var lock: ProfileLockHandle?
    var runtime: bool
    var context: bool
    var initialRef: Option<ArtifactRef>
    var finalRef: Option<ArtifactRef>
    var runRecord: Option<RunRecord>
    var contextRecord: Option<ContextRecord>
    var result: Option<LifecycleResult>

    constructor (job: Job, table: LockTable, trace: Trace)
      ensures this.job == job && this.table == table && this.trace == trace && Unused()
    {
      this.job := job;
      this.table := table;
      this.trace := trace;
      lock, runtime, context := null, false, false;
      initialRef, finalRef, runRecord, contextRecord, result := None, None, None, None, None;
    }

    predicate Unused()
      reads this
    {
      && lock == null && !runtime && !context && initialRef.None? && finalRef.None? && runRecord.None?
      && contextRecord.None? && result.None?
    }

    /** Between a successful enter and the exit. */
    predicate Entered()
      reads this, lock
    {
      && lock != null && lock.profile == job.session.profile && lock.table == table && !lock.released
      && runtime && context && finalRef.None? && runRecord.Some? && result.None?
      && contextRecord == Some(ContextRecord(initialRef, None, false))
    }

    function Lock(): set<object>
      reads this
    {
      if lock == null then {} else {lock}
    }

    /** `__aenter__`: either everything is open, or whatever had been opened is closed again
        and the exception of the first failed step is raised. */
    method Enter(written: ArtifactRef, f: EnterFaults, cleanup: CleanupFaults) returns (raised: Option<Exc>)
      requires Unused()
      modifies this, trace, table
      ensures !Acceptable(job) ==>
                && raised.Some? && raised.value.kind.Ordinary? && raised.value.name == "ValueError"
                && Unused() && trace.log == old(trace.log) && table.held == old(table.held)
      ensures Acceptable(job) ==>
                var steps := EnterSteps(job.session.config, job.profile !in old(table.held), f);
                var k := FirstFailure(steps);
                if k == 8 then
                  && raised.None? && Entered() && fresh(lock)
                  && initialRef == InitialRef(job.session.config, written)
                  && runRecord == Some(RunRecord(Running, None, None, Collected(initialRef, None), BuildMetadata(job)))
                  && trace.log == old(trace.log) + Opening(8) && table.held == old(table.held) + {job.profile}
                else
                  && raised == steps[k] && lock == null && result.None?
                  && trace.log == old(trace.log) + Opening(k) + CleaningUp(k)
                  && table.held == (if k > 1 && cleanup.release.stillHeld then old(table.held) + {job.profile}
                                    else old(table.held))
    {
      if job.profile != job.session.profile {
        return Some(ValueError("profile.profile_id does not match session.profile_id"));
      }
      if job.requestSession != job.session.id {
        return Some(ValueError("request.session_id does not match session.session_id"));
      }
      if !job.idsValid { return Some(ValueError("invalid identifier")); }
      if job.session.config.userDataDir { return Some(ValueError("user_data_dir is not supported")); }
      if job.session.config.fingerprint { return Some(ValueError("fingerprint mapping is deferred")); }
      if !job.profileDirMatches {
        return Some(ValueError("profile.profile_dir does not match the SessionPaths authority"));
      }
      raised := TryEnter(written, f);
      if raised.Some? { EnterFailureCleanup(cleanup); }
    }

    /** The guarded part: it stops at the first step that raises. */
    method TryEnter(written: ArtifactRef, f: EnterFaults) returns (raised: Option<Exc>)
      requires Unused() && Acceptable(job)
      modifies this, trace, table
      ensures var steps := EnterSteps(job.session.config, job.profile !in old(table.held), f);
              var k := FirstFailure(steps);
              && trace.log == old(trace.log) + Opening(k)
              && raised == (if k == 8 then None else steps[k])
              && (lock != null <==> k > 1) && (runtime <==> k > 5) && (context <==> k > 6) && result.None?
              && (lock != null ==> HoldsLock() && fresh(lock))
              && table.held == (if k > 1 then old(table.held) + {job.profile} else old(table.held))
              && (k > 1 ==> job.profile !in old(table.held))
              && (k == 8 ==> Entered() && initialRef == InitialRef(job.session.config, written)
                             && runRecord == Some(RunRecord(Running, None, None, Collected(initialRef, None), BuildMetadata(job))))
    {
      ghost var steps := EnterSteps(job.session.config, job.profile !in table.held, f);
      assert steps[5] == f.launch && steps[6] == f.context && steps[7] == f.records;
      hide FirstFailure, EnterSteps;
      ghost var k;
      k, raised := Prepare(written, f);
      if raised.None? { k, raised := Start(f, steps); }
      StopsAt(steps, k);
    }

    predicate HoldsLock()
      reads this, lock
    {
      lock != null && lock.profile == job.profile && lock.table == table && !lock.released
    }

    /** Layout, lock, prior state and initial snapshot: nothing is launched yet. */
    method Prepare(written: ArtifactRef, f: EnterFaults) returns (ghost k: nat, raised: Option<Exc>)
      requires Unused()
      modifies this, trace, table
      ensures var steps := EnterSteps(job.session.config, job.profile !in old(table.held), f);
              k <= 5 && (forall i :: 0 <= i < k ==> steps[i].None?) && (k < 5 ==> steps[k].Some?)
              && raised == (if k < 5 then steps[k] else None)
      ensures trace.log == old(trace.log) + (if k > 1 then [Acquired] else [])
      ensures table.held == if k > 1 then old(table.held) + {job.profile} else old(table.held)
      ensures if k > 1 then HoldsLock() && fresh(lock) && job.profile !in old(table.held) else lock == null
      ensures !runtime && !context && finalRef.None? && runRecord.None? && contextRecord.None? && result.None?
      ensures k == 5 ==> initialRef == InitialRef(job.session.config, written)
    {
      if f.profileLayout.Some? { return 0, f.profileLayout; }
      lock, raised := Acquire(table, job.profile, f.acquire);
      if raised.Some? { k := 1; return; }
      trace.log := trace.log + [Acquired];
      if f.runLayout.Some? { return 2, f.runLayout; }
      if f.prior.Some? { return 3, f.prior; }
      if WritesInitial(job.session.config) {
        if f.initialWrite.Some? { return 4, f.initialWrite; }
        initialRef := Some(written);
      }
      k := 5;
    }

    /** Launch, context and records. */
    method Start(f: EnterFaults, ghost steps: seq<Option<Exc>>) returns (ghost k: nat, raised: Option<Exc>)
      requires |steps| == 8 && steps[5] == f.launch && steps[6] == f.context && steps[7] == f.records
      requires !runtime && !context
      modifies this`runtime, this`context, this`runRecord, this`contextRecord, trace
      ensures 5 <= k <= 8 && (forall i :: 5 <= i < k ==> steps[i].None?) && (k < 8 ==> steps[k].Some?)
      ensures raised == if k < 8 then steps[k] else None
      ensures trace.log == old(trace.log) + (if k > 5 then [Launched] else []) + (if k > 6 then [Opened] else [])
      ensures (runtime <==> k > 5) && (context <==> k > 6)
      ensures k == 8 ==>
                && runRecord == Some(RunRecord(Running, None, None, Collected(initialRef, None), BuildMetadata(job)))
                && contextRecord == Some(ContextRecord(initialRef, None, false))
    {
      if f.launch.Some? { return 5, f.launch; }
      runtime := true;
      trace.log := trace.log + [Launched];
      if f.context.Some? { return 6, f.context; }
      context := true;
      trace.log := trace.log + [Opened];
      if f.records.Some? { return 7, f.records; }
      runRecord := Some(RunRecord(Running, None, None, Collected(initialRef, None), BuildMetadata(job)));
      contextRecord := Some(ContextRecord(initialRef, None, false));
      k, raised := 8, None;
    }

    /** `_enter_failure_cleanup`: context, runtime, lock, whatever they raise. */
    method EnterFailureCleanup(f: CleanupFaults)
      requires lock != null ==> lock.table == table && !lock.released
      modifies this`lock, trace, table, Lock()
      ensures lock == null
      ensures trace.log == old(trace.log) + (if context then [ContextClosed] else [])
                         + (if runtime then [RuntimeClosed] else []) + (if old(lock) != null then [Released] else [])
      ensures table.held == if old(lock) != null && !f.release.stillHeld then old(table.held) - {old(lock.profile)}
                            else old(table.held)
    {
      if context { trace.log := trace.log + [ContextClosed]; }
      if runtime { trace.log := trace.log + [RuntimeClosed]; }
      if lock != null {
        trace.log := trace.log + [Released];
        var ignored := lock.Release(f.release);
        lock := null;
      }
    }

    method CaptureAndRecordFinalState(capture: Capture) returns (raised: Option<Exc>)
      requires contextRecord.Some? && finalRef.None?
      modifies this`finalRef, this`contextRecord, trace
      ensures var writes := WritesFinal(job.session.config) && context;
              && trace.log == old(trace.log) + (if writes then [Captured] else [])
              && raised == (if writes && capture.NotWritten? then Some(capture.error) else None)
              && finalRef == (if writes && capture.Wrote? then Some(capture.ref) else None)
              && contextRecord == Some(old(contextRecord.value).(
                   final := if finalRef.Some? then finalRef else old(contextRecord.value.final)))
    {
      raised := None;
      if !WritesFinal(job.session.config) || !context { return; }
      trace.log := trace.log + [Captured];
      match capture {
        case NotWritten(error) => raised := Some(error);
        case Wrote(ref) =>
          finalRef := Some(ref);
          contextRecord := Some(contextRecord.value.(final := Some(ref)));
      }
    }

    /** The close is attempted, and recorded as done, even when it raises. */
    method CloseContext(fault: Option<Exc>) returns (raised: Option<Exc>)
      requires contextRecord.Some?
      modifies this`contextRecord, trace
      ensures trace.log == old(trace.log) + (if context then [ContextClosed] else [])
      ensures raised == if context then fault else None
      ensures contextRecord == Some(old(contextRecord.value).(closed := context || old(contextRecord.value.closed)))
    {
      if !context { return None; }
      trace.log := trace.log + [ContextClosed];
      raised := fault;
      contextRecord := Some(contextRecord.value.(closed := true));
    }

    method CloseRuntime(fault: Option<Exc>) returns (raised: Option<Exc>)
      modifies trace
      ensures trace.log == old(trace.log) + (if runtime then [RuntimeClosed] else [])
      ensures raised == if runtime then fault else None
    {
      if !runtime { return None; }
      trace.log := trace.log + [RuntimeClosed];
      raised := fault;
    }

    method ReleaseLock(out: Unlock) returns (raised: Option<Exc>)
      requires lock != null ==> lock.table == table && !lock.released
      modifies this`lock, trace, table, Lock()
      ensures lock == null
      ensures trace.log == old(trace.log) + (if old(lock) != null then [Released] else [])
      ensures raised == if old(lock) != null then Surfaced(out.raised) else None
      ensures table.held == if old(lock) != null && !out.stillHeld then old(table.held) - {old(lock.profile)}
                            else old(table.held)
    {
      if lock == null { return None; }
      trace.log := trace.log + [Released];
      raised := lock.Release(out);
      lock := null;
    }

    /** `__aexit__`.  `raised` is what the exit itself raises; the caller's own exception is
        never suppressed. */
    method Exit(caller: Option<Exc>, f: ExitFaults) returns (raised: Option<Exc>)
      requires Entered()
      modifies this, trace, table, Lock()
      ensures lock == null && initialRef == old(initialRef) && finalRef == FinalRef(job.session.config, f)
      ensures trace.log == old(trace.log) + ExitEvents(job.session.config)
      ensures table.held == if f.release.stillHeld then old(table.held) else old(table.held) - {job.session.profile}
      ensures raised == ExitRaises(job, caller, f)
      ensures runRecord == Some(ExitRecord(job, initialRef, caller, f))
      ensures contextRecord == Some(ContextRecord(initialRef, finalRef, true))
      ensures result == if f.result.Some? then None else Some(ExitResult(job, initialRef, caller, f))
    {
      var cleanupErrors, first := CleanUp(f);
      var error := if caller.Some? then caller else first;
      var status := if error.None? then Succeeded else Failed;
      runRecord := Some(TerminalRecord(job, initialRef, finalRef, status, error, cleanupErrors));
      if f.result.Some? { return f.result; }
      result := Some(LifecycleResult(
        runRecord.value, contextRecord, UpdatedSession(job.session, initialRef, finalRef, status.Succeeded?),
        initialRef, finalRef));
      raised := if caller.None? then first else None;
    }

    /** The four steps of the exit, whatever they raise. */
    method CleanUp(f: ExitFaults) returns (cleanupErrors: seq<string>, first: Option<Exc>)
      requires Entered()
      modifies this`lock, this`finalRef, this`contextRecord, trace, table, Lock()
      ensures lock == null && finalRef == FinalRef(job.session.config, f)
      ensures trace.log == old(trace.log) + ExitEvents(job.session.config)
      ensures table.held == if f.release.stillHeld then old(table.held) else old(table.held) - {job.session.profile}
      ensures contextRecord == Some(ContextRecord(initialRef, finalRef, true))
      ensures var errors := Raised(ExitSteps(job.session.config, f));
              cleanupErrors == Messages(errors) && first == if errors == [] then None else Some(errors[0])
    {
      hide RedactException, Raised, Messages;
      var failed := CaptureAndRecordFinalState(f.capture);
      cleanupErrors, first := Message(failed), failed;
      failed := CloseContext(f.context);
      cleanupErrors, first := cleanupErrors + Message(failed), if first.None? then failed else first;
      failed := CloseRuntime(f.runtime);
      cleanupErrors, first := cleanupErrors + Message(failed), if first.None? then failed else first;
      failed := ReleaseLock(f.release);
      cleanupErrors, first := cleanupErrors + Message(failed), if first.None? then failed else first;
      Collects(ExitSteps(job.session.config, f), cleanupErrors, first);
    }
  }

  /** Collecting as the exit does it, one step after the other. */
  lemma Collects(steps: seq<Option<Exc>>, messages: seq<string>, first: Option<Exc>)
    requires |steps| == 4
    requires messages == Message(steps[0]) + Message(steps[1]) + Message(steps[2]) + Message(steps[3])
    requires first == if steps[0].Some? then steps[0] else if steps[1].Some? then steps[1]
                      else if steps[2].Some? then steps[2] else steps[3]
    ensures messages == Messages(Raised(steps))
    ensures first == if Raised(steps) == [] then None else Some(Raised(steps)[0])
  {
    hide *;
    RaisedOfFour(steps);
    var e0, e1, e2 := AsList(steps[0]), AsList(steps[1]), AsList(steps[2]);
    MessagesAppend([], steps[0]);
    MessagesAppend(e0, steps[1]);
    MessagesAppend(e0 + e1, steps[2]);
    MessagesAppend(e0 + e1 + e2, steps[3]);
    assert [] + e0 == e0;
    FirstOf(steps);
  }

  lemma FirstOf(steps: seq<Option<Exc>>)
    requires |steps| == 4
    ensures var errors := AsList(steps[0]) + AsList(steps[1]) + AsList(steps[2]) + AsList(steps[3]);
            (if errors == [] then None else Some(errors[0]))
              == if steps[0].Some? then steps[0] else if steps[1].Some? then steps[1]
                 else if steps[2].Some? then steps[2] else steps[3]
  {
  }

  function Message(e: Option<Exc>): seq<string> { if e.Some? then [RedactException(e.value)] else [] }

  lemma {:induction false} StopsAt(steps: seq<Option<Exc>>, k: nat)
    requires k <= |steps| && (forall i :: 0 <= i < k ==> steps[i].None?) && (k < |steps| ==> steps[k].Some?)
    ensures FirstFailure(steps) == k
  {
    if k > 0 { StopsAt(steps[1..], k - 1); }
  }

  lemma RaisedOfFour(steps: seq<Option<Exc>>)
    requires |steps| == 4
    ensures Raised(steps) == AsList(steps[0]) + AsList(steps[1]) + AsList(steps[2]) + AsList(steps[3])
  {
    assert steps[..3][..2] == steps[..2] && steps[..2][..1] == steps[..1] && steps[..1][..0] == [];
    assert Raised(steps[..1]) == AsList(steps[0]);
    assert Raised(steps[..2]) == Raised(steps[..1]) + AsList(steps[1]);
    assert Raised(steps[..3]) == Raised(steps[..2]) + AsList(steps[2]);
  }

  lemma MessagesAppend(errors: seq<Exc>, e: Option<Exc>)
    ensures Messages(errors + AsList(e)) == Messages(errors) + Message(e) && Messages([]) == []
  {
    hide TokenRedaction.RedactString;
  }

  // ------------------------------------------------------------------
  // What an exit records, for every caller exception and every fault
  // ------------------------------------------------------------------

  lemma RaisedLast(steps: seq<Option<Exc>>)
    requires steps != []
    ensures Raised(steps) == Raised(steps[..|steps| - 1]) + AsList(steps[|steps| - 1])
  {
  }

  lemma {:induction false} RaisedNothing(steps: seq<Option<Exc>>)
    ensures Raised(steps) == [] <==> forall i :: 0 <= i < |steps| ==> steps[i].None?
  {
    if steps != [] {
      var n := |steps| - 1;
      RaisedNothing(steps[..n]);
      hide Raised;
      assert Raised(steps) == Raised(steps[..n]) + AsList(steps[n]) by { RaisedLast(steps); }
      assert forall i :: 0 <= i < n ==> steps[..n][i] == steps[i];
    }
  }

  /** What each step of the exit raises, in order: capturing, closing the context and the
      runtime, releasing the lock. */
  lemma StepsOfExit(config: Config, f: ExitFaults)
    ensures ExitSteps(config, f) == [
              if config.persist && config.captureFinal && f.capture.NotWritten? then Some(f.capture.error) else None,
              f.context, f.runtime,
              if f.release.raised.Some? && (f.release.raised.value.kind.Control? || f.release.raised.value.kind.Bare?)
              then f.release.raised else None]
  {
  }

  /** No step of the exit fails. */
  predicate CleanExit(config: Config, f: ExitFaults) {
    && (config.persist && config.captureFinal ==> f.capture.Wrote?) && f.context.None? && f.runtime.None?
    && (f.release.raised.Some? ==> f.release.raised.value.kind.Project? || f.release.raised.value.kind.Ordinary?)
  }

  lemma CleanExitExactly(config: Config, f: ExitFaults)
    ensures CleanExit(config, f) <==> forall i :: 0 <= i < 4 ==> ExitSteps(config, f)[i].None?
    ensures CleanExit(config, f) <==> Raised(ExitSteps(config, f)) == []
  {
    RaisedNothing(ExitSteps(config, f));
    hide Raised;
    var steps := ExitSteps(config, f);
    assert (forall i :: 0 <= i < 4 ==> steps[i].None?) <==>
      steps[0].None? && steps[1].None? && steps[2].None? && steps[3].None?;
  }

  /** A run is recorded as succeeded exactly when the caller raised nothing and no step of
      the exit failed; a failed run always names an error. */
  lemma SucceededExactly(job: Job, initial: Option<ArtifactRef>, caller: Option<Exc>, f: ExitFaults)
    ensures var record := ExitRecord(job, initial, caller, f);
            && (record.status.Succeeded? <==> caller.None? && CleanExit(job.session.config, f))
            && (record.status.Succeeded? || record.status.Failed?)
            && (record.status.Failed? <==> record.errorType.Some?)
            && (record.errorType.Some? <==> record.errorMessage.Some?)
  {
    CleanExitExactly(job.session.config, f);
    hide ExitSteps, Raised, TokenRedaction.RedactString, CleanExit;
  }

  /** Position `i` of `errors` is what step `at[i]` raised, `at` increases, and it leaves no
      failed step out. */
  ghost predicate FailedSteps(steps: seq<Option<Exc>>, errors: seq<Exc>, at: seq<nat>) {
    && |at| == |errors|
    && (forall i :: 0 <= i < |at| ==> at[i] < |steps| && steps[at[i]] == Some(errors[i]))
    && (forall i, j :: 0 <= i < j < |at| ==> at[i] < at[j])
    && (forall k :: 0 <= k < |steps| && steps[k].Some? ==> k in at)
  }

  lemma {:induction false} RaisedAreTheFailedSteps(steps: seq<Option<Exc>>) returns (at: seq<nat>)
    ensures FailedSteps(steps, Raised(steps), at)
  {
    at := [];
    if steps != [] {
      var n := |steps| - 1;
      var before := RaisedAreTheFailedSteps(steps[..n]);
      RaisedLast(steps);
      hide Raised;
      at := if steps[n].Some? then before + [n] else before;
      FailedStepsGrow(steps, Raised(steps[..n]), before);
    }
  }

  lemma FailedStepsGrow(steps: seq<Option<Exc>>, errors: seq<Exc>, before: seq<nat>)
    requires steps != [] && FailedSteps(steps[..|steps| - 1], errors, before)
    ensures var n := |steps| - 1;
            FailedSteps(steps, errors + AsList(steps[n]), if steps[n].Some? then before + [n] else before)
  {
    var n := |steps| - 1;
    var at := if steps[n].Some? then before + [n] else before;
    assert forall k :: 0 <= k < n ==> steps[..n][k] == steps[k];
    forall k | 0 <= k < |steps| && steps[k].Some? ensures k in at {
      assert k < n ==> k in before;
    }
  }

  /** `message` is what the source writes about `e`: class name and text, with the token
      matches in them replaced. */
  ghost predicate Describes(message: string, e: Exc) {
    TokenRedaction.Replaced(e.name + ": " + e.text, message) && TokenRedaction.NormalForm(message)
  }

  /** Without a token in it, it is class name and text as they are. */
  lemma PlainDescription(message: string, e: Exc)
    requires TokenRedaction.NormalForm(e.name + ": " + e.text)
    ensures Describes(message, e) <==> message == e.name + ": " + e.text
  {
    TokenRedaction.RedactedExactly(e.name + ": " + e.text, message);
    TokenRedaction.RedactFixesNormalForms(e.name + ": " + e.text);
    hide TokenRedaction.RedactString, TokenRedaction.NormalForm, TokenRedaction.Replaced;
  }

  lemma RedactedDescribes(e: Exc)
    ensures Describes(TokenRedaction.RedactString(e.name + ": " + e.text), e)
  {
    var text := e.name + ": " + e.text;
    TokenRedaction.RedactedExactly(text, TokenRedaction.RedactString(text));
    TokenRedaction.RedactedIsNormal(text);
  }

  /** The recorded cleanup errors describe what was raised by exactly the steps that failed, in
      order, and there is no such record when none failed; the recorded error is the caller's
      exception if there is one, else the first failure. */
  lemma CleanupErrorsAreExact(job: Job, initial: Option<ArtifactRef>, caller: Option<Exc>, f: ExitFaults)
    returns (errors: seq<Exc>, at: seq<nat>)
    ensures FailedSteps(ExitSteps(job.session.config, f), errors, at)
    ensures var record := ExitRecord(job, initial, caller, f);
            if errors == [] then record.metadata == BuildMetadata(job)
            else
              && "_sightstalker_cleanup_errors" in record.metadata
              && var entry := record.metadata["_sightstalker_cleanup_errors"];
                 && entry.Errors? && |entry.messages| == |errors|
                 && forall i :: 0 <= i < |errors| ==> Describes(entry.messages[i], errors[i])
    ensures var record := ExitRecord(job, initial, caller, f);
            var error := if caller.Some? then caller else if errors != [] then Some(errors[0]) else None;
            match error
            case None => record.errorType.None? && record.errorMessage.None?
            case Some(e) =>
              record.errorType == Some(e.name) && record.errorMessage.Some? && Describes(record.errorMessage.value, e)
  {
    errors := Raised(ExitSteps(job.session.config, f));
    at := RaisedAreTheFailedSteps(ExitSteps(job.session.config, f));
    hide ExitSteps, Raised, FailedSteps, Describes, TokenRedaction.RedactString;
    forall i | 0 <= i < |errors| ensures Describes(Messages(errors)[i], errors[i]) { RedactedDescribes(errors[i]); }
    if caller.Some? { RedactedDescribes(caller.value); } else if errors != [] { RedactedDescribes(errors[0]); }
  }

  /** The recorded metadata is the request's, except for the two reserved keys: the timeout
      always wins over a value given under its key, and the cleanup key is only touched when
      something failed. */
  lemma MetadataKeepsRequest(job: Job, initial: Option<ArtifactRef>, caller: Option<Exc>, f: ExitFaults)
    ensures var metadata := ExitRecord(job, initial, caller, f).metadata;
            var timeout, cleanup := "_sightstalker_request_timeout_ms", "_sightstalker_cleanup_errors";
            && timeout in metadata && metadata[timeout] == Timeout(job.timeout)
            && (forall k :: k in job.metadata && k != timeout && k != cleanup ==>
                  k in metadata && metadata[k] == job.metadata[k])
            && (forall k :: k in metadata ==> k in job.metadata || k == timeout || k == cleanup)
            && (CleanExit(job.session.config, f) && cleanup in metadata ==>
                  cleanup in job.metadata && metadata[cleanup] == job.metadata[cleanup])
  {
    assert TIMEOUT_KEY[14] != CLEANUP_ERRORS_KEY[14];
    CleanExitExactly(job.session.config, f);
    hide ExitSteps, Raised, CleanExit, TokenRedaction.RedactString;
  }

  /** Whatever the cleanup does, the caller's exception stays the recorded one and the exit
      does not replace it, unless the run directory itself has become unsafe. */
  lemma CallerExceptionIsRecorded(job: Job, initial: Option<ArtifactRef>, caller: Exc, f: ExitFaults)
    ensures var record := ExitRecord(job, initial, Some(caller), f);
            && record.errorType == Some(caller.name) && record.errorMessage.Some?
            && Describes(record.errorMessage.value, caller)
            && ExitRaises(job, Some(caller), f) == f.result
  {
    RedactedDescribes(caller);
    hide Describes, TokenRedaction.RedactString;
  }

  /** The session's latest final state moves exactly when the run is recorded as succeeded and
      captured one: a failed run may have captured one too, which then stays in its own record
      only.  The latest initial state moves whenever one was written. */
  lemma LatestFinalMovesExactly(job: Job, initial: Option<ArtifactRef>, caller: Option<Exc>, f: ExitFaults)
    ensures var result, config := ExitResult(job, initial, caller, f), job.session.config;
            var captured := config.persist && config.captureFinal && f.capture.Wrote?;
            && result.initial == initial && result.final == (if captured then Some(f.capture.ref) else None)
            && result.context == Some(ContextRecord(initial, result.final, true))
            && result.run.artifacts == (if initial.Some? then [initial.value] else [])
                                         + (if captured then [f.capture.ref] else [])
            && result.updatedSession == job.session.(
                 latestInitial := if initial.Some? then initial else job.session.latestInitial,
                 latestFinal := if captured && caller.None? && CleanExit(config, f) then Some(f.capture.ref)
                                else job.session.latestFinal)
  {
    SucceededExactly(job, initial, caller, f);
    hide CleanExit, ExitSteps, Raised, TokenRedaction.RedactString;
    assert ExitRecord(job, initial, caller, f).artifacts == Collected(initial, FinalRef(job.session.config, f));
    hide ExitRecord;
  }

  // ------------------------------------------------------------------
  // Everything opened is closed once, last opened first closed
  // ------------------------------------------------------------------

  datatype Held = HeldLock | HeldRuntime | HeldContext

  /** The stack of open resources after one event, or None when the event is out of order. */
  function Track(open: seq<Held>, e: Event): Option<seq<Held>> {
    match e
    case Acquired => if open == [] then Some([HeldLock]) else None
    case Launched => if open == [HeldLock] then Some(open + [HeldRuntime]) else None
    case Opened => if open == [HeldLock, HeldRuntime] then Some(open + [HeldContext]) else None
    case ContextClosed => Pop(open, HeldContext)
    case RuntimeClosed => Pop(open, HeldRuntime)
    case Released => Pop(open, HeldLock)
    case _ => Some(open)
  }

  function Pop(open: seq<Held>, top: Held): Option<seq<Held>> {
    if open != [] && open[|open| - 1] == top then Some(open[..|open| - 1]) else None
  }

  function Replay(open: seq<Held>, log: seq<Event>): Option<seq<Held>> {
    if log == [] then Some(open)
    else
      var before := Replay(open, log[..|log| - 1]);
      if before.None? then None else Track(before.value, log[|log| - 1])
  }

  lemma {:induction false} ReplayAppend(open: seq<Held>, a: seq<Event>, b: seq<Event>)
    requires Replay(open, a).Some?
    ensures Replay(open, a + b) == Replay(Replay(open, a).value, b)
  {
    if b == [] {
      assert a + b == a;
    } else {
      var n := |b| - 1;
      ReplayAppend(open, a, b[..n]);
      assert (a + b)[..|a + b| - 1] == a + b[..n];
    }
  }

  predicate TouchesNothing(e: Event) { e.Initialized? || e.Planned? || e.Captured? || e.Transaction? }

  lemma {:induction false} WorkKeepsResources(open: seq<Held>, work: seq<Event>)
    requires forall i :: 0 <= i < |work| ==> TouchesNothing(work[i])
    ensures Replay(open, work) == Some(open)
  {
    if work != [] { WorkKeepsResources(open, work[..|work| - 1]); }
  }

  /** What is open when step `k` of entering is reached. */
  function OpenAt(k: nat): seq<Held> {
    if k > 6 then All() else if k > 5 then [HeldLock, HeldRuntime] else if k > 1 then [HeldLock] else []
  }

  lemma OpeningReplay(k: nat)
    ensures Replay([], Opening(k)) == Some(OpenAt(k))
  {
    if k > 6 {
      ReplayThree([], Acquired, Launched, Opened);
      assert Opening(k) == [Acquired] + [Launched] + [Opened] && [HeldLock, HeldRuntime] + [HeldContext] == All();
      assert [HeldLock] + [HeldRuntime] == [HeldLock, HeldRuntime];
    } else if k > 5 {
      ReplayOne([], Acquired);
      ReplayOne([HeldLock], Launched);
      ReplayAppend([], [Acquired], [Launched]);
      assert Opening(k) == [Acquired] + [Launched] && [HeldLock] + [HeldRuntime] == [HeldLock, HeldRuntime];
    } else if k > 1 {
      ReplayOne([], Acquired);
      assert Opening(k) == [Acquired];
    }
  }

  lemma CleaningReplay(k: nat)
    ensures Replay(OpenAt(k), CleaningUp(k)) == Some([])
  {
    if k > 6 {
      ReplayThree(All(), ContextClosed, RuntimeClosed, Released);
    } else if k > 5 {
      ReplayOne([HeldLock, HeldRuntime], RuntimeClosed);
      ReplayOne([HeldLock], Released);
      ReplayAppend([HeldLock, HeldRuntime], [RuntimeClosed], [Released]);
      assert CleaningUp(k) == [RuntimeClosed] + [Released];
    } else if k > 1 {
      ReplayOne([HeldLock], Released);
      assert CleaningUp(k) == [Released];
    } else {
      assert CleaningUp(k) == [];
    }
  }

  /** However far entering got, the log of a failed enter opens and closes in order and ends
      with nothing open. */
  lemma FailedEnterClosesEverything(k: nat)
    ensures Replay([], Opening(k) + CleaningUp(k)) == Some([])
  {
    hide *;
    OpeningReplay(k);
    CleaningReplay(k);
    ReplayAppend([], Opening(k), CleaningUp(k));
  }

  /** And so does the log of a complete run, whatever happens between enter and exit and
      whatever the exit's steps raise. */
  lemma CompleteRunClosesEverything(config: Config, work: seq<Event>)
    requires forall i :: 0 <= i < |work| ==> TouchesNothing(work[i])
    ensures Replay([], Opening(8) + work) == Some(All())
    ensures Replay([], Opening(8) + work + ExitEvents(config)) == Some([])
  {
    assert OpenAt(8) == All();
    ExitReplay(config);
    hide *;
    OpeningReplay(8);
    WorkKeepsResources(All(), work);
    ReplayAppend([], Opening(8), work);
    ReplayAppend([], Opening(8) + work, ExitEvents(config));
  }

  lemma ExitReplay(config: Config)
    ensures Replay(All(), ExitEvents(config)) == Some([])
  {
    var captured := if WritesFinal(config) then [Captured] else [];
    assert ExitEvents(config) == captured + [ContextClosed, RuntimeClosed, Released];
    WorkKeepsResources(All(), captured);
    ReplayThree(All(), ContextClosed, RuntimeClosed, Released);
    hide Replay;
    ReplayAppend(All(), captured, [ContextClosed, RuntimeClosed, Released]);
  }

  function All(): seq<Held> { [HeldLock, HeldRuntime, HeldContext] }

  lemma ReplayOne(open: seq<Held>, e: Event)
    ensures Replay(open, [e]) == Track(open, e)
  {
    assert [e][..0] == [];
  }

  lemma ReplayThree(open: seq<Held>, a: Event, b: Event, c: Event)
    requires Track(open, a).Some? && Track(Track(open, a).value, b).Some?
    ensures Replay(open, [a] + [b] + [c]) == Track(Track(Track(open, a).value, b).value, c)
    ensures [a] + [b] + [c] == [a, b, c]
  {
    hide Track;
    ReplayOne(open, a);
    ReplayOne(Track(open, a).value, b);
    ReplayOne(Track(Track(open, a).value, b).value, c);
    ReplayAppend(open, [a], [b]);
    ReplayAppend(open, [a] + [b], [c]);
  }
}
