/** Managed runs as an interleaved step system (sessions/manager.py, sessions/locks.py,
    sessions/state_store.py, ops/runs.py).

    Every await of a run is one step, and any step may fail.  Any number of runs over any
    profiles and sessions interleave freely, while outsiders change snapshot files and take
    and drop profile locks. */
module RunSystem {
  import opened Text
  import opened FileTree
  import opened RunEvents

  type ProfileId = nat
  type SessionId = nat
  type RunId = nat

  datatype BrowserState = BrowserState(engine: string, content: seq<int>)

  /** SHA-256 and the JSON codec, kept abstract. */
  datatype Codec = Codec(
    hash: Bytes -> string, encode: BrowserState -> Bytes, decode: Bytes -> Option<BrowserState>)

  /** What is assumed of them: the hash is injective and the codec round-trips. */
  ghost predicate Sound(c: Codec) {
    && (forall a, b :: c.hash(a) == c.hash(b) ==> a == b)
    && (forall s :: c.decode(c.encode(s)) == Some(s))
  }

  /** The place of one run's initial or final snapshot; the layout gives each its own file. */
  datatype Slot = Slot(profile: ProfileId, run: RunId, final: bool)

  datatype Ref = Ref(slot: Slot, sha: string, size: nat)

  datatype Config = Config(persist: bool, captureInitial: bool, captureFinal: bool, engine: string)

  datatype Session = Session(
    profile: ProfileId, config: Config, latestInitial: Option<Ref>, latestFinal: Option<Ref>)

  datatype Resource = Absent | Live | Ended

  datatype Stage = AtLock | AtLayout | AtPrior | AtInitial | AtLaunch | AtContext | AtRecords
    | AtInitializers | AtPlan | AtCapture | AtCloseContext | AtCloseRuntime | AtRelease
    | AtPersist | Done

  datatype Run = Run(
    session: SessionId, profile: ProfileId, config: Config, initializers: nat,
    prior: Option<Ref>,              // latest_final_state of the session as loaded
    seen: nat,                       // how many commits there were when it was loaded
    stage: Stage, lock: Resource, runtime: Resource, context: Resource,
    start: Option<BrowserState>,     // what the prior snapshot resolved to
    passed: Option<Option<BrowserState>>, // the initial_state argument of new_context
    initialRef: Option<Ref>, finalRef: Option<Ref>, captured: Option<BrowserState>,
    entered: bool, ran: nat, planned: bool, tried: bool, failed: bool, cleanupFailed: bool,
    transacted: bool, committed: bool, log: seq<Event>)

  datatype Commit = Commit(run: RunId, session: SessionId, finalRef: Option<Ref>, finalState: Option<BrowserState>)

  datatype World = World(
    sessions: map<SessionId, Session>, locked: set<ProfileId>, outside: set<ProfileId>,
    files: map<Slot, Bytes>, runs: map<RunId, Run>, commits: seq<Commit>)

  /** What the environment decides in one step: whether the step raises, whether releasing
      the lock fails silently underneath, whether the plan's output cannot be returned,
      whether the scope for the initializers cannot be built, and the state the browser
      reports. */
  datatype Input = Input(fails: bool, stuck: bool, unsafe: bool, scope: bool, state: BrowserState)

  datatype Action =
    | Begin(run: RunId, session: SessionId, initializers: nat)
    | Step(run: RunId, input: Input)
    | Tamper(slot: Slot, content: Option<Bytes>)
    | TakeOutside(profile: ProfileId)
    | DropOutside(profile: ProfileId)

  function RefTo(c: Codec, slot: Slot, s: BrowserState): Ref {
    Ref(slot, c.hash(c.encode(s)), |c.encode(s)|)
  }

  /** `read_state`: missing, wrong size, wrong hash or undecodable all raise. */
  function ReadState(c: Codec, files: map<Slot, Bytes>, ref: Ref): Option<BrowserState> {
    if ref.slot !in files then None else
    var raw := files[ref.slot];
    if |raw| != ref.size || c.hash(raw) != ref.sha then None else c.decode(raw)
  }

  function Empty(config: Config): BrowserState { BrowserState(config.engine, []) }

  function Loaded(w: World, session: SessionId, initializers: nat): Run
    requires session in w.sessions
  {
    var s := w.sessions[session];
    Run(session, s.profile, s.config, initializers, s.latestFinal, |w.commits|, AtLock,
        Absent, Absent, Absent, None, None, None, None, None,
        false, 0, false, false, false, false, false, false, [])
  }

  predicate WritesInitial(run: Run) { run.config.persist && run.config.captureInitial }

  predicate WritesFinal(run: Run) {
    run.config.persist && run.config.captureFinal && !run.context.Absent?
  }

  /** What a run was asked to do never changes. */
  predicate SameJob(run: Run, next: Run) {
    && next.session == run.session && next.profile == run.profile && next.config == run.config
    && next.initializers == run.initializers && next.prior == run.prior && next.seen == run.seen
  }

  /** No snapshot was written, none captured. */
  predicate SameRefs(run: Run, next: Run) {
    next.initialRef == run.initialRef && next.finalRef == run.finalRef && next.captured == run.captured
  }

  /** `_enter_failure_cleanup` is next. */
  function Abort(run: Run): (next: Run)
    ensures SameJob(run, next) && SameRefs(run, next) && next.lock == run.lock
  {
    run.(stage := AtCloseContext)
  }

  /** A close attempt during the exit is recorded as a cleanup error when it fails; during
      the cleanup of a failed enter it is swallowed. */
  function Note(run: Run, fails: bool): Run {
    run.(cleanupFailed := run.cleanupFailed || (fails && run.entered))
  }

  predicate Entering(s: Stage) {
    s.AtLock? || s.AtLayout? || s.AtPrior? || s.AtInitial? || s.AtLaunch? || s.AtContext? || s.AtRecords?
  }

  predicate Closing(s: Stage) { s.AtCloseContext? || s.AtCloseRuntime? || s.AtRelease? }

  /** `_resolve_initial_state`. */
  function ResolvePrior(c: Codec, files: map<Slot, Bytes>, run: Run): Option<BrowserState> {
    if run.config.persist && run.prior.Some? then ReadState(c, files, run.prior.value) else Some(Empty(run.config))
  }

  /** `ProfileLockManager.acquire`. */
  function NextLock(locked: set<ProfileId>, run: Run, fails: bool): (next: Run)
    ensures SameJob(run, next) && SameRefs(run, next) && (next.lock != run.lock ==> run.profile !in locked)
    ensures (next.stage == AtLayout || next.stage == AtCloseContext) && (run.lock.Live? ==> next.lock.Live?)
  {
    if fails || run.profile in locked then Abort(run)
    else run.(stage := AtLayout, lock := Live, log := run.log + [Acquired])
  }

  function WithPrior(run: Run, state: Option<BrowserState>, fails: bool): (next: Run)
    ensures SameJob(run, next) && SameRefs(run, next) && next.lock == run.lock
    ensures if fails || state.None? then next.stage == AtCloseContext && next.start == run.start
            else next.stage == AtInitial && next.start == state
  {
    if fails || state.None? then Abort(run) else run.(stage := AtInitial, start := state)
  }

  function NextInitial(c: Codec, w: World, r: RunId, run: Run, x: Input): (next: Run)
    ensures SameJob(run, next) && next.lock == run.lock && (next.stage == AtLaunch || next.stage == AtCloseContext)
    ensures next.finalRef == run.finalRef && next.captured == run.captured && next.start == run.start
    ensures run.initialRef.None? && next.initialRef.Some? ==>
              var slot := Slot(run.profile, r, false);
              slot !in w.files && run.start.Some? && next.initialRef == Some(RefTo(c, slot, run.start.value))
  {
    if !WritesInitial(run) then run.(stage := AtLaunch)
    else if x.fails || Slot(run.profile, r, false) in w.files || run.start.None? then Abort(run)
    else run.(stage := AtLaunch, initialRef := Some(RefTo(c, Slot(run.profile, r, false), run.start.value)))
  }

  function NextCapture(c: Codec, w: World, r: RunId, run: Run, x: Input): (next: Run)
    ensures SameJob(run, next) && next.lock == run.lock && next.stage == AtCloseContext
    ensures next.initialRef == run.initialRef
    ensures run.finalRef.None? && run.captured.None? ==>
              if next.finalRef.None? then next.captured.None?
              else
                var slot := Slot(run.profile, r, true);
                slot !in w.files && next.captured.Some? && next.finalRef == Some(RefTo(c, slot, next.captured.value))
  {
    if !WritesFinal(run) then run.(stage := AtCloseContext)
    else
      var tried := run.(stage := AtCloseContext, tried := true, log := run.log + [Captured]);
      if x.fails || Slot(run.profile, r, true) in w.files then Note(tried, true)
      else tried.(finalRef := Some(RefTo(c, Slot(run.profile, r, true), x.state)), captured := Some(x.state))
  }

  /** Launching, opening the context, and storing the records. */
  function NextOpening(run: Run, x: Input): (next: Run)
    ensures SameJob(run, next) && SameRefs(run, next) && next.lock == run.lock
    ensures var s := next.stage; s == AtContext || s == AtRecords || s == AtInitializers || s == AtCloseContext
  {
    if x.fails then Abort(run)
    else if run.stage.AtLaunch? then run.(stage := AtContext, runtime := Live, log := run.log + [Launched])
    else if run.stage.AtContext? then
      run.(stage := AtRecords, context := Live, log := run.log + [Opened],
           passed := Some(if run.config.persist then run.start else None))
    else run.(stage := AtInitializers, entered := true)
  }

  /** The steps of `__aenter__`. */
  function NextEntering(c: Codec, w: World, r: RunId, run: Run, x: Input): (next: Run)
    requires Entering(run.stage)
    ensures SameJob(run, next) && (!run.lock.Live? && next.lock.Live? ==> run.profile !in w.locked)
  {
    match run.stage
    case AtLock => NextLock(w.locked, run, x.fails)
    case AtLayout => if x.fails then Abort(run) else run.(stage := AtPrior)
    case AtPrior => WithPrior(run, ResolvePrior(c, w.files, run), x.fails)
    case AtInitial => NextInitial(c, w, r, run, x)
    case AtLaunch | AtContext | AtRecords => NextOpening(run, x)
  }

  /** Initializers and plan. */
  function NextWork(run: Run, x: Input): (next: Run)
    requires run.stage.AtInitializers? || run.stage.AtPlan?
    ensures SameJob(run, next) && SameRefs(run, next) && next.lock == run.lock
    ensures next.stage == AtInitializers || next.stage == AtPlan || next.stage == AtCapture
  {
    if run.stage.AtPlan? then run.(planned := true, log := run.log + [Planned], failed := x.fails, stage := AtCapture)
    else if run.ran == run.initializers then run.(stage := AtPlan)
    else if run.ran == 0 && x.scope then run.(failed := true, stage := AtCapture)
    else
      run.(ran := run.ran + 1, log := run.log + [Initialized(run.ran)], failed := x.fails,
           stage := if x.fails then AtCapture else AtInitializers)
  }

  /** The steps that give resources back, and the metadata transaction. */
  function NextLeaving(run: Run, x: Input): (next: Run)
    requires Closing(run.stage) || run.stage.AtPersist? || run.stage.Done?
    ensures SameJob(run, next) && SameRefs(run, next) && (next.lock.Live? ==> run.lock.Live?)
    ensures run.lock.Live? ==> (next.lock.Live? <==> run.stage != AtRelease)
    ensures var s := next.stage; s == AtCloseRuntime || s == AtRelease || s == AtPersist || s == Done
  {
    match run.stage
    case AtCloseContext =>
      if run.context.Absent? then run.(stage := AtCloseRuntime)
      else Note(run, x.fails).(stage := AtCloseRuntime, context := Ended, log := run.log + [ContextClosed])
    case AtCloseRuntime =>
      if run.runtime.Absent? then run.(stage := AtRelease)
      else Note(run, x.fails).(stage := AtRelease, runtime := Ended, log := run.log + [RuntimeClosed])
    case AtRelease =>
      var out := if run.lock.Absent? then run
                 else Note(run, x.fails).(lock := Ended, log := run.log + [Released]);
      out.(stage := if out.entered && !out.failed && !out.cleanupFailed then AtPersist else Done)
    case AtPersist =>
      if x.unsafe then run.(stage := Done)
      else run.(stage := Done, transacted := true, committed := !x.fails, log := run.log + [Transaction])
    case Done => run
  }

  /** One step of a run.  A lock is only acquired when it is free. */
  function NextRun(c: Codec, w: World, r: RunId, run: Run, x: Input): (next: Run)
    ensures SameJob(run, next) && (!run.lock.Live? && next.lock.Live? ==> run.profile !in w.locked)
  {
    if Entering(run.stage) then NextEntering(c, w, r, run, x)
    else if run.stage.AtInitializers? || run.stage.AtPlan? then NextWork(run, x)
    else if run.stage.AtCapture? then NextCapture(c, w, r, run, x)
    else NextLeaving(run, x)
  }

  function NextLocked(w: World, run: Run, next: Run, x: Input): set<ProfileId> {
    if !run.lock.Live? && next.lock.Live? then w.locked + {run.profile}
    else if run.lock.Live? && !next.lock.Live? && !x.stuck then w.locked - {run.profile}
    else w.locked
  }

  function NextFiles(c: Codec, w: World, r: RunId, run: Run, next: Run): map<Slot, Bytes> {
    if run.stage.AtInitial? && next.initialRef.Some? && run.start.Some?
    then w.files[Slot(run.profile, r, false) := c.encode(run.start.value)]
    else if run.stage.AtCapture? && next.captured.Some?
    then w.files[Slot(run.profile, r, true) := c.encode(next.captured.value)]
    else w.files
  }

  /** The metadata transaction: the session row and the ghost list of commits. */
  function Commits(w: World, r: RunId, run: Run, next: Run): World {
    if run.stage.AtPersist? && next.committed && run.session in w.sessions then
      w.(sessions := w.sessions[run.session :=
           w.sessions[run.session].(latestInitial := run.initialRef, latestFinal := run.finalRef)],
         commits := w.commits + [Commit(r, run.session, run.finalRef, run.captured)])
    else w
  }

  function StepRun(c: Codec, w: World, r: RunId, x: Input): World
    requires r in w.runs
  {
    var run := w.runs[r];
    var next := NextRun(c, w, r, run, x);
    Commits(w, r, run, next).(
      runs := w.runs[r := next], locked := NextLocked(w, run, next, x), files := NextFiles(c, w, r, run, next))
  }

  function Apply(c: Codec, w: World, a: Action): World {
    match a
    case Begin(r, session, n) =>
      if r in w.runs || session !in w.sessions then w
      else w.(runs := w.runs[r := Loaded(w, session, n)])
    case Step(r, x) => if r in w.runs then StepRun(c, w, r, x) else w
    case Tamper(slot, Some(content)) => w.(files := w.files[slot := content])
    case Tamper(slot, None) => w.(files := w.files - {slot})
    case TakeOutside(p) =>
      if p in w.locked then w else w.(locked := w.locked + {p}, outside := w.outside + {p})
    case DropOutside(p) =>
      if p !in w.outside then w else w.(locked := w.locked - {p}, outside := w.outside - {p})
  }

  function Exec(c: Codec, w: World, actions: seq<Action>): World
    decreases |actions|
  {
    if actions == [] then w
    else Apply(c, Exec(c, w, actions[..|actions| - 1]), actions[|actions| - 1])
  }

  /** No run yet, and every session created without refs; files and locks arbitrary. */
  ghost predicate Initial(w: World) {
    && w.runs == map[] && w.commits == [] && w.locked == w.outside
    && forall s :: s in w.sessions ==> w.sessions[s].latestFinal.None?
  }

  // ------------------------------------------------------------------
  // One run
  // ------------------------------------------------------------------

  function Then(log: seq<Event>, happened: bool, e: Event): seq<Event> {
    if happened then log + [e] else log
  }

  function WithInitializers(log: seq<Event>, n: nat): seq<Event> {
    if n == 0 then log else WithInitializers(log, n - 1) + [Initialized(n - 1)]
  }

  /** What a run has opened, in order. */
  function Opening(run: Run): seq<Event> {
    Then(Then(Then([], !run.lock.Absent?, Acquired), !run.runtime.Absent?, Launched), !run.context.Absent?, Opened)
  }

  /** What it has closed, in the reverse order. */
  function Closed(log: seq<Event>, run: Run): seq<Event> {
    Then(Then(Then(log, run.context.Ended?, ContextClosed), run.runtime.Ended?, RuntimeClosed), run.lock.Ended?, Released)
  }

  /** The only log a run can have: resources opened in one order, the initializers, the plan
      and the capture as far as they got, resources closed in the other order, and last of
      all the metadata transaction. */
  function Canonical(run: Run): seq<Event> {
    Then(
      Closed(
        Then(Then(WithInitializers(Opening(run), run.ran), run.planned, Planned), run.tried, Captured),
        run),
      run.transacted, Transaction)
  }

  /** The resources a run may have at each stage. */
  predicate ResourcesFit(run: Run) {
    match run.stage
    case AtLock => run.lock.Absent? && run.runtime.Absent? && run.context.Absent?
    case AtLayout | AtPrior | AtInitial | AtLaunch => run.lock.Live? && run.runtime.Absent? && run.context.Absent?
    case AtContext => run.lock.Live? && run.runtime.Live? && run.context.Absent?
    case AtRecords | AtInitializers | AtPlan | AtCapture => run.lock.Live? && run.runtime.Live? && run.context.Live?
    case AtCloseContext =>
      && !run.lock.Ended? && !run.runtime.Ended? && !run.context.Ended?
      && (run.runtime.Live? ==> run.lock.Live?) && (run.context.Live? ==> run.runtime.Live?)
    case AtCloseRuntime =>
      && !run.lock.Ended? && !run.runtime.Ended? && !run.context.Live?
      && (run.runtime.Live? ==> run.lock.Live?) && (run.context.Ended? ==> run.runtime.Live?)
    case AtRelease =>
      && !run.lock.Ended? && !run.runtime.Live? && !run.context.Live?
      && (run.runtime.Ended? ==> run.lock.Live?) && (run.context.Ended? ==> run.runtime.Ended?)
    case AtPersist | Done =>
      && !run.lock.Live? && !run.runtime.Live? && !run.context.Live?
      && (run.runtime.Ended? ==> run.lock.Ended?) && (run.context.Ended? ==> run.runtime.Ended?)
  }

  /** What the flags of a run say about how far it got. */
  predicate FlagsFit(run: Run) {
    && run.ran <= run.initializers
    && (Entering(run.stage) ==> !run.entered)
    && (run.stage.AtInitializers? || run.stage.AtPlan? || run.stage.AtCapture? || run.stage.AtPersist? ==> run.entered)
    && (run.entered ==> !run.context.Absent?)
    && (!run.entered ==> run.ran == 0 && !run.planned && !run.tried && !run.failed && !run.cleanupFailed)
    && (run.stage.AtInitializers? || run.stage.AtPlan? ==> !run.planned && !run.failed && !run.tried && !run.cleanupFailed)
    && (run.stage.AtPlan? ==> run.ran == run.initializers)
    && (run.stage.AtCapture? ==> !run.tried && !run.cleanupFailed)
    && (run.entered && !run.stage.AtInitializers? && !run.stage.AtPlan? ==>
          (run.planned || run.failed) && (run.planned ==> run.ran == run.initializers))
    && (!run.stage.Done? ==> !run.transacted && !run.committed)
    && (run.stage.AtPersist? ==> !run.failed && !run.cleanupFailed)
    && (run.transacted ==> run.entered && run.planned && !run.failed && !run.cleanupFailed)
    && (run.committed ==> run.transacted)
  }

  ghost predicate RunInv(run: Run) {
    ResourcesFit(run) && FlagsFit(run) && run.log == Canonical(run)
  }

  lemma EnteringKeepsInv(c: Codec, w: World, r: RunId, run: Run, x: Input)
    requires RunInv(run) && Entering(run.stage)
    ensures RunInv(NextRun(c, w, r, run, x))
  {
    hide ReadState, Empty;
  }

  lemma InitializersKeepInv(c: Codec, w: World, r: RunId, run: Run, x: Input)
    requires RunInv(run) && run.stage.AtInitializers?
    ensures RunInv(NextRun(c, w, r, run, x))
  {
  }

  lemma WorkingKeepsInv(c: Codec, w: World, r: RunId, run: Run, x: Input)
    requires RunInv(run) && (run.stage.AtPlan? || run.stage.AtCapture?)
    ensures RunInv(NextRun(c, w, r, run, x))
  {
    hide RefTo;
  }

  lemma CloseContextKeepsInv(c: Codec, w: World, r: RunId, run: Run, x: Input)
    requires RunInv(run) && run.stage.AtCloseContext?
    ensures RunInv(NextRun(c, w, r, run, x))
  {
  }

  lemma CloseRuntimeKeepsInv(c: Codec, w: World, r: RunId, run: Run, x: Input)
    requires RunInv(run) && run.stage.AtCloseRuntime?
    ensures RunInv(NextRun(c, w, r, run, x))
  {
  }

  lemma ReleaseKeepsInv(c: Codec, w: World, r: RunId, run: Run, x: Input)
    requires RunInv(run) && run.stage.AtRelease?
    ensures RunInv(NextRun(c, w, r, run, x))
  {
  }

  lemma PersistKeepsInv(c: Codec, w: World, r: RunId, run: Run, x: Input)
    requires RunInv(run) && (run.stage.AtPersist? || run.stage.Done?)
    ensures RunInv(NextRun(c, w, r, run, x))
  {
  }

  lemma NextKeepsInv(c: Codec, w: World, r: RunId, run: Run, x: Input)
    requires RunInv(run)
    ensures RunInv(NextRun(c, w, r, run, x))
  {
    hide RunInv, NextRun;
    match run.stage
    case AtCloseContext => CloseContextKeepsInv(c, w, r, run, x);
    case AtCloseRuntime => CloseRuntimeKeepsInv(c, w, r, run, x);
    case AtRelease => ReleaseKeepsInv(c, w, r, run, x);
    case AtPersist | Done => PersistKeepsInv(c, w, r, run, x);
    case AtInitializers => InitializersKeepInv(c, w, r, run, x);
    case AtPlan | AtCapture => WorkingKeepsInv(c, w, r, run, x);
    case _ => EnteringKeepsInv(c, w, r, run, x);
  }

  // ------------------------------------------------------------------
  // All runs together: exclusion
  // ------------------------------------------------------------------

  /** A profile lock is held by at most one run, and never also by an outsider. */
  ghost predicate LocksInv(w: World) {
    && w.outside <= w.locked
    && (forall r :: r in w.runs && w.runs[r].lock.Live? ==> w.runs[r].profile in w.locked - w.outside)
    && (forall q, r :: q in w.runs && r in w.runs && q != r && w.runs[q].lock.Live? && w.runs[r].lock.Live?
          ==> w.runs[q].profile != w.runs[r].profile)
  }

  ghost predicate RunsInv(w: World) {
    forall r :: r in w.runs ==> RunInv(w.runs[r])
  }

  lemma LocksAfter(w: World, w': World, r: RunId, next: Run, x: Input)
    requires LocksInv(w) && r in w.runs && next.profile == w.runs[r].profile
    requires !w.runs[r].lock.Live? && next.lock.Live? ==> next.profile !in w.locked
    requires w'.runs == w.runs[r := next] && w'.outside == w.outside
    requires w'.locked == NextLocked(w, w.runs[r], next, x)
    ensures LocksInv(w')
  {
    var run := w.runs[r];
    forall q | q in w'.runs && q != r ensures w'.runs[q] == w.runs[q] {}
    if run.lock.Live? {
      assert forall q :: q in w.runs && q != r && w.runs[q].lock.Live? ==> w.runs[q].profile != run.profile;
    }
  }

  lemma StepKeepsLocks(c: Codec, w: World, r: RunId, x: Input)
    requires RunsInv(w) && LocksInv(w) && r in w.runs
    ensures RunsInv(StepRun(c, w, r, x)) && LocksInv(StepRun(c, w, r, x))
  {
    var run := w.runs[r];
    NextKeepsInv(c, w, r, run, x);
    hide RunInv, NextRun, NextFiles, LocksInv, NextLocked;
    LocksAfter(w, StepRun(c, w, r, x), r, NextRun(c, w, r, run, x), x);
  }

  lemma ApplyKeepsLocks(c: Codec, w: World, a: Action)
    requires RunsInv(w) && LocksInv(w)
    ensures RunsInv(Apply(c, w, a)) && LocksInv(Apply(c, w, a))
  {
    hide RunInv, NextRun, StepRun;
    match a
    case Step(r, x) => if r in w.runs { StepKeepsLocks(c, w, r, x); }
    case Begin(r, session, n) => if session in w.sessions { NewRunFits(w, a); }
    case _ =>
  }

  lemma NewRunFits(w: World, a: Action)
    requires a.Begin? && a.session in w.sessions
    ensures RunInv(Loaded(w, a.session, a.initializers)) && !Loaded(w, a.session, a.initializers).lock.Live?
  {
  }

  lemma {:induction false} ExecKeepsLocks(c: Codec, w: World, actions: seq<Action>)
    requires RunsInv(w) && LocksInv(w)
    ensures RunsInv(Exec(c, w, actions)) && LocksInv(Exec(c, w, actions))
    decreases |actions|
  {
    if actions != [] {
      var before := actions[..|actions| - 1];
      ExecKeepsLocks(c, w, before);
      ApplyKeepsLocks(c, Exec(c, w, before), actions[|actions| - 1]);
    }
  }

  /** The lifecycle theorem.  In every reachable state of any interleaving, with any step
      failing: a profile is used by at most one run; a runtime or context that is open
      belongs to a run that holds its profile's lock; a finished run holds nothing; and the
      history of each run is the canonical one, so everything opened is closed exactly once,
      context before runtime before lock, and the transaction comes after the release. */
  lemma LifecycleIsSafe(c: Codec, w0: World, actions: seq<Action>)
    requires Initial(w0)
    ensures var w := Exec(c, w0, actions);
            && LocksInv(w)
            && forall r :: r in w.runs ==>
                 var run := w.runs[r];
                 && (run.runtime.Live? || run.context.Live? ==> run.lock.Live?)
                 && (run.stage.AtPersist? || run.stage.Done? ==>
                       !run.lock.Live? && !run.runtime.Live? && !run.context.Live?)
                 && run.log == Canonical(run)
                 && (run.transacted ==> run.ran == run.initializers && run.planned && !run.failed && !run.cleanupFailed)
  {
    ExecKeepsLocks(c, w0, actions);
    var w := Exec(c, w0, actions);
    forall r | r in w.runs ensures RunInv(w.runs[r]) {}
  }

  /** A second acquire while a run holds the lock fails, whoever tries. */
  lemma HeldLockRefuses(c: Codec, w0: World, actions: seq<Action>, q: RunId, r: RunId, x: Input)
    requires Initial(w0)
    requires var w := Exec(c, w0, actions);
             q in w.runs && r in w.runs && w.runs[q].lock.Live? && w.runs[r].profile == w.runs[q].profile
             && w.runs[r].stage.AtLock?
    ensures var w := Exec(c, w0, actions);
            StepRun(c, w, r, x).runs[r] == Abort(w.runs[r]) && StepRun(c, w, r, x).locked == w.locked
  {
    ExecKeepsLocks(c, w0, actions);
  }

  // ------------------------------------------------------------------
  // All runs together: provenance of the browser state
  // ------------------------------------------------------------------

  /** The final reference of the session's last commit among the first `n`. */
  function LatestAt(commits: seq<Commit>, n: nat, session: SessionId): Option<Ref>
    requires n <= |commits|
  {
    if n == 0 then None
    else if commits[n - 1].session == session then commits[n - 1].finalRef
    else LatestAt(commits, n - 1, session)
  }

  ghost predicate CommitInv(c: Codec, w: World, k: Commit) {
    && k.run in w.runs && w.runs[k.run].committed && w.runs[k.run].session == k.session
    && k.finalRef == w.runs[k.run].finalRef && k.finalState == w.runs[k.run].captured
  }

  /** A commit of the same session, older than the run's loading, that wrote `ref` from `state`. */
  ghost predicate Vouched(w: World, run: Run, ref: Ref, state: BrowserState)
    requires run.seen <= |w.commits|
  {
    exists i :: 0 <= i < run.seen && w.commits[i].session == run.session
      && w.commits[i].finalRef == Some(ref) && w.commits[i].finalState == Some(state)
  }

  predicate PastPrior(run: Run) {
    !run.runtime.Absent? || run.stage.AtInitial? || run.stage.AtLaunch?
  }

  predicate PastCapture(s: Stage) { Closing(s) || s.AtPersist? || s.Done? }

  ghost predicate Provenance(c: Codec, w: World, r: RunId, run: Run) {
    && run.seen <= |w.commits|
    && run.session in w.sessions && run.config == w.sessions[run.session].config
    && run.prior == LatestAt(w.commits, run.seen, run.session)
    && (forall i :: 0 <= i < |w.commits| && w.commits[i].run == r ==> run.seen <= i && run.committed)
    && (PastPrior(run) ==> run.start.Some?)
    && (run.start.Some? ==>
          if run.config.persist && run.prior.Some? then Vouched(w, run, run.prior.value, run.start.value)
          else run.start == Some(Empty(run.config)))
    && (run.passed.Some? <==> !run.context.Absent?)
    && (run.passed.Some? ==> run.passed.value == if run.config.persist then run.start else None)
    && (run.finalRef == match run.captured
                        case Some(s) => Some(RefTo(c, Slot(run.profile, r, true), s))
                        case None => None)
    && (run.entered && WritesFinal(run) && !run.cleanupFailed && PastCapture(run.stage) ==> run.captured.Some?)
  }

  ghost predicate ProvenanceInv(c: Codec, w: World) {
    && (forall i :: 0 <= i < |w.commits| ==> CommitInv(c, w, w.commits[i]))
    && (forall s :: s in w.sessions ==> w.sessions[s].latestFinal == LatestAt(w.commits, |w.commits|, s))
    && (forall r :: r in w.runs ==> Provenance(c, w, r, w.runs[r]))
  }

  lemma {:induction false} LatestIsACommit(commits: seq<Commit>, n: nat, session: SessionId)
    requires n <= |commits| && LatestAt(commits, n, session).Some?
    ensures exists i :: 0 <= i < n && commits[i].session == session && commits[i].finalRef == LatestAt(commits, n, session)
  {
    if commits[n - 1].session != session { LatestIsACommit(commits, n - 1, session); }
  }

  lemma {:induction false} LatestIsStable(commits: seq<Commit>, k: Commit, n: nat, session: SessionId)
    requires n <= |commits|
    ensures LatestAt(commits + [k], n, session) == LatestAt(commits, n, session)
  {
    if n > 0 { LatestIsStable(commits, k, n - 1, session); }
  }

  /** Reading a vouched reference gives back the captured state, whatever outsiders did to
      the file in the meantime, or nothing: the hash check catches every change. */
  lemma ReadVouched(c: Codec, w: World, run: Run)
    requires Sound(c) && ProvenanceInv(c, w) && run.seen <= |w.commits|
    requires run.prior == LatestAt(w.commits, run.seen, run.session) && run.prior.Some?
    requires ReadState(c, w.files, run.prior.value).Some?
    ensures Vouched(w, run, run.prior.value, ReadState(c, w.files, run.prior.value).value)
  {
    LatestIsACommit(w.commits, run.seen, run.session);
    var i :| 0 <= i < run.seen && w.commits[i].session == run.session && w.commits[i].finalRef == run.prior;
    var k := w.commits[i];
    assert CommitInv(c, w, k);
    assert Provenance(c, w, k.run, w.runs[k.run]);
    var state := k.finalState.value;
    assert run.prior.value.sha == c.hash(c.encode(state));
    assert w.files[run.prior.value.slot] == c.encode(state);
    assert c.decode(c.encode(state)) == Some(state);
  }

  /** The step of the run itself, judged in the world before the step. */
  lemma PriorKeepsProvenance(c: Codec, w: World, r: RunId, x: Input)
    requires Sound(c) && ProvenanceInv(c, w) && r in w.runs && RunInv(w.runs[r])
    requires w.runs[r].stage.AtPrior?
    ensures Provenance(c, w, r, NextRun(c, w, r, w.runs[r], x))
  {
    var run := w.runs[r];
    assert Provenance(c, w, r, run);
    var state := ResolvePrior(c, w.files, run);
    if run.config.persist && run.prior.Some? && state.Some? { ReadVouched(c, w, run); }
    ResourcesOf(run);
    WithPriorKeepsProvenance(c, w, r, run, state, x.fails);
    assert NextRun(c, w, r, run, x) == WithPrior(run, state, x.fails) by {
      hide ResolvePrior, WithPrior, Provenance, ProvenanceInv, RunInv, Sound;
    }
    hide NextRun, ResolvePrior, Provenance, ProvenanceInv, RunInv, Sound;
  }

  lemma WithPriorKeepsProvenance(c: Codec, w: World, r: RunId, run: Run, state: Option<BrowserState>, fails: bool)
    requires Provenance(c, w, r, run) && ResourcesFit(run) && run.stage.AtPrior?
    requires run.config.persist && run.prior.Some? && state.Some? ==> Vouched(w, run, run.prior.value, state.value)
    requires !(run.config.persist && run.prior.Some?) ==> state == Some(Empty(run.config))
    ensures Provenance(c, w, r, WithPrior(run, state, fails))
  {
    hide LatestAt, RefTo, Empty, Vouched;
    if fails || state.None? {
      hide Provenance;
      KeptKeepsProvenance(c, w, r, run, WithPrior(run, state, fails));
    } else {
      FrameOfVouched(w, run, WithPrior(run, state, fails));
    }
  }

  lemma ResourcesOf(run: Run)
    requires RunInv(run)
    ensures ResourcesFit(run) && FlagsFit(run)
  {
  }

  lemma CaptureKeepsProvenance(c: Codec, w: World, r: RunId, x: Input)
    requires r in w.runs && RunInv(w.runs[r]) && Provenance(c, w, r, w.runs[r]) && w.runs[r].stage.AtCapture?
    ensures Provenance(c, w, r, NextRun(c, w, r, w.runs[r], x))
  {
    hide Canonical, LatestAt, ReadState, RefTo, Empty, Vouched;
    var run := w.runs[r];
    var next := NextRun(c, w, r, run, x);
    FrameOfVouched(w, run, next);
  }

  lemma FrameOfVouched(w: World, run: Run, next: Run)
    requires next.seen == run.seen && next.session == run.session && run.seen <= |w.commits|
    ensures forall ref, s :: Vouched(w, run, ref, s) ==> Vouched(w, next, ref, s)
  {
  }

  lemma OpeningKeepsProvenance(c: Codec, w: World, r: RunId, x: Input)
    requires r in w.runs && RunInv(w.runs[r]) && Provenance(c, w, r, w.runs[r])
    requires Entering(w.runs[r].stage) && !w.runs[r].stage.AtPrior?
    ensures Provenance(c, w, r, NextRun(c, w, r, w.runs[r], x))
  {
    hide Canonical, LatestAt, ReadState, RefTo, Empty, Vouched;
    var run := w.runs[r];
    FrameOfVouched(w, run, NextRun(c, w, r, run, x));
  }

  /** A step that leaves alone everything provenance speaks of. */
  predicate Kept(run: Run, next: Run) {
    && next.session == run.session && next.profile == run.profile && next.config == run.config
    && next.prior == run.prior && next.seen == run.seen && next.start == run.start && next.passed == run.passed
    && next.finalRef == run.finalRef && next.captured == run.captured
    && (next.context.Absent? <==> run.context.Absent?) && (run.committed ==> next.committed)
    && (PastPrior(next) ==> PastPrior(run)) && (next.entered ==> run.entered)
    && (next.entered && WritesFinal(next) && !next.cleanupFailed && PastCapture(next.stage) ==>
          !run.cleanupFailed && PastCapture(run.stage))
  }

  lemma WorkKeeps(run: Run, x: Input)
    requires ResourcesFit(run) && FlagsFit(run) && (run.stage.AtInitializers? || run.stage.AtPlan?)
    ensures Kept(run, NextWork(run, x))
  {
  }

  lemma LeavingKeeps(run: Run, x: Input)
    requires ResourcesFit(run) && FlagsFit(run) && (Closing(run.stage) || run.stage.AtPersist? || run.stage.Done?)
    ensures Kept(run, NextLeaving(run, x))
  {
  }

  lemma KeptKeepsProvenance(c: Codec, w: World, r: RunId, run: Run, next: Run)
    requires Provenance(c, w, r, run) && Kept(run, next)
    ensures Provenance(c, w, r, next)
  {
    FrameOfVouched(w, run, next);
    hide LatestAt, RefTo, Empty, Vouched;
  }

  lemma OtherKeepsProvenance(c: Codec, w: World, r: RunId, x: Input)
    requires r in w.runs && RunInv(w.runs[r]) && Provenance(c, w, r, w.runs[r])
    requires !Entering(w.runs[r].stage) && !w.runs[r].stage.AtCapture?
    ensures Provenance(c, w, r, NextRun(c, w, r, w.runs[r], x))
  {
    var run := w.runs[r];
    ResourcesOf(run);
    if run.stage.AtInitializers? || run.stage.AtPlan? { WorkKeeps(run, x); } else { LeavingKeeps(run, x); }
    hide RunInv, ResourcesFit, FlagsFit, Provenance, NextWork, NextLeaving, Kept;
    KeptKeepsProvenance(c, w, r, run, NextRun(c, w, r, run, x));
  }

  lemma NextKeepsProvenance(c: Codec, w: World, r: RunId, x: Input)
    requires Sound(c) && ProvenanceInv(c, w) && r in w.runs && RunInv(w.runs[r])
    ensures Provenance(c, w, r, NextRun(c, w, r, w.runs[r], x))
  {
    var stage := w.runs[r].stage;
    assert Provenance(c, w, r, w.runs[r]);
    hide Provenance, ProvenanceInv, RunInv, NextRun, Sound;
    if stage.AtPrior? { PriorKeepsProvenance(c, w, r, x); }
    else if Entering(stage) { OpeningKeepsProvenance(c, w, r, x); }
    else if stage.AtCapture? { CaptureKeepsProvenance(c, w, r, x); }
    else { OtherKeepsProvenance(c, w, r, x); }
  }

  /** Only the commit list grew, and no session changed its config. */
  ghost predicate Extends(w: World, w': World) {
    && (w'.commits == w.commits || (|w'.commits| == |w.commits| + 1 && w'.commits[..|w.commits|] == w.commits))
    && w'.sessions.Keys == w.sessions.Keys
    && forall s :: s in w.sessions ==> w'.sessions[s].config == w.sessions[s].config
  }

  lemma ExtendedLatest(w: World, w': World, n: nat, session: SessionId)
    requires Extends(w, w') && n <= |w.commits|
    ensures LatestAt(w'.commits, n, session) == LatestAt(w.commits, n, session)
  {
    if w'.commits != w.commits {
      assert w'.commits == w.commits + [w'.commits[|w.commits|]];
      LatestIsStable(w.commits, w'.commits[|w.commits|], n, session);
    }
  }

  lemma ProvenanceFrame(c: Codec, w: World, w': World, r: RunId, run: Run)
    requires Provenance(c, w, r, run) && Extends(w, w')
    requires |w'.commits| > |w.commits| && w'.commits[|w.commits|].run == r ==> run.committed
    ensures Provenance(c, w', r, run)
  {
    ExtendedLatest(w, w', run.seen, run.session);
    hide LatestAt;
    assert forall i :: 0 <= i < |w.commits| ==> w'.commits[i] == w'.commits[..|w.commits|][i];
    assert forall i :: 0 <= i < |w.commits| ==> w'.commits[i] == w.commits[i];
    if run.start.Some? && run.config.persist && run.prior.Some? {
      var i :| 0 <= i < run.seen && w.commits[i].session == run.session
        && w.commits[i].finalRef == Some(run.prior.value) && w.commits[i].finalState == Some(run.start.value);
      assert Vouched(w', run, run.prior.value, run.start.value);
    }
  }

  lemma StepKeepsProvenance(c: Codec, w: World, r: RunId, x: Input)
    requires Sound(c) && ProvenanceInv(c, w) && r in w.runs && RunInv(w.runs[r])
    ensures ProvenanceInv(c, StepRun(c, w, r, x))
  {
    var w' := StepRun(c, w, r, x);
    assert Provenance(c, w, r, w.runs[r]);
    NextKeepsProvenance(c, w, r, x);
    StepKeepsRunProvenance(c, w, r, x);
    StepKeepsCommits(c, w, r, x);
    StepKeepsLatest(c, w, r, x);
    hide StepRun, NextRun, Provenance, CommitInv, LatestAt, RunInv, Sound;
  }

  lemma StepKeepsRunProvenance(c: Codec, w: World, r: RunId, x: Input)
    requires ProvenanceInv(c, w) && r in w.runs && RunInv(w.runs[r]) && w.runs[r].session in w.sessions
    requires Provenance(c, w, r, NextRun(c, w, r, w.runs[r], x))
    ensures var w' := StepRun(c, w, r, x); forall q :: q in w'.runs ==> Provenance(c, w', q, w'.runs[q])
  {
    var w' := StepRun(c, w, r, x);
    CommitStep(c, w, r, x);
    hide StepRun, NextRun, Provenance, CommitInv, LatestAt, RunInv;
    forall q | q in w'.runs ensures Provenance(c, w', q, w'.runs[q]) {
      ProvenanceFrame(c, w, w', q, w'.runs[q]);
    }
  }

  lemma CommitFrame(c: Codec, w: World, w': World, r: RunId, k: Commit)
    requires CommitInv(c, w, k) && r in w.runs && r in w'.runs && w'.runs == w.runs[r := w'.runs[r]]
    requires w.runs[r].committed ==> w'.runs[r] == w.runs[r]
    ensures CommitInv(c, w', k)
  {
  }

  lemma StepKeepsCommits(c: Codec, w: World, r: RunId, x: Input)
    requires ProvenanceInv(c, w) && r in w.runs && RunInv(w.runs[r]) && w.runs[r].session in w.sessions
    ensures var w' := StepRun(c, w, r, x); forall i :: 0 <= i < |w'.commits| ==> CommitInv(c, w', w'.commits[i])
  {
    var w' := StepRun(c, w, r, x);
    CommitStep(c, w, r, x);
    hide StepRun, NextRun, Provenance, LatestAt, RunInv;
    forall i | 0 <= i < |w.commits| ensures CommitInv(c, w', w.commits[i]) {
      CommitFrame(c, w, w', r, w.commits[i]);
    }
    if w'.commits != w.commits {
      var last := Commit(r, w.runs[r].session, w'.runs[r].finalRef, w'.runs[r].captured);
      assert w'.commits == w.commits + [last] && CommitInv(c, w', last);
    }
    hide CommitInv;
  }

  lemma StepKeepsLatest(c: Codec, w: World, r: RunId, x: Input)
    requires ProvenanceInv(c, w) && r in w.runs && RunInv(w.runs[r]) && w.runs[r].session in w.sessions
    ensures var w' := StepRun(c, w, r, x);
            forall s :: s in w'.sessions ==> w'.sessions[s].latestFinal == LatestAt(w'.commits, |w'.commits|, s)
  {
    var w' := StepRun(c, w, r, x);
    CommitStep(c, w, r, x);
    hide StepRun, NextRun, Provenance, CommitInv, RunInv;
    forall s | s in w'.sessions ensures w'.sessions[s].latestFinal == LatestAt(w'.commits, |w'.commits|, s) {
      if w'.commits != w.commits {
        LatestIsStable(w.commits, w'.commits[|w.commits|], |w.commits|, s);
      }
    }
  }

  /** What a step does to the commits: nothing, or it adds the run's own commit; and a run
      that has committed no longer changes. */
  lemma CommitStep(c: Codec, w: World, r: RunId, x: Input)
    requires r in w.runs && RunInv(w.runs[r]) && w.runs[r].session in w.sessions
    ensures var run, w' := w.runs[r], StepRun(c, w, r, x);
            var next := NextRun(c, w, r, run, x);
            && Extends(w, w') && w'.runs == w.runs[r := next]
            && (run.committed ==> next == run)
            && next.session == run.session
            && (w'.commits == w.commits ==> w'.sessions == w.sessions)
            && (w'.commits != w.commits ==>
                  next.committed && !run.committed && w'.commits == w.commits + [Commit(r, run.session, next.finalRef, next.captured)]
                  && w'.sessions == w.sessions[run.session :=
                       w.sessions[run.session].(latestInitial := next.initialRef, latestFinal := next.finalRef)])
  {
    hide ReadState, Empty, Canonical, NextFiles, NextLocked;
    var w' := StepRun(c, w, r, x);
    assert |w'.commits| > |w.commits| ==> w'.commits[..|w.commits|] == w.commits;
  }

  lemma BeginKeepsProvenance(c: Codec, w: World, a: Action)
    requires ProvenanceInv(c, w) && a.Begin?
    ensures ProvenanceInv(c, Apply(c, w, a))
  {
    var w' := Apply(c, w, a);
    hide LatestAt;
    if w' != w {
      forall i | 0 <= i < |w.commits| ensures CommitInv(c, w', w.commits[i]) && w.commits[i].run != a.run {
        assert CommitInv(c, w, w.commits[i]);
      }
      forall q | q in w.runs ensures Provenance(c, w', q, w'.runs[q]) {
        ProvenanceFrame(c, w, w', q, w.runs[q]);
      }
    }
  }

  lemma OutsidersKeepProvenance(c: Codec, w: World, a: Action)
    requires ProvenanceInv(c, w) && !a.Begin? && !a.Step?
    ensures ProvenanceInv(c, Apply(c, w, a))
  {
    var w' := Apply(c, w, a);
    OutsidersTouch(c, w, a);
    hide LatestAt, Apply, Provenance;
    forall i | 0 <= i < |w.commits| ensures CommitInv(c, w', w.commits[i]) { assert CommitInv(c, w, w.commits[i]); }
    forall q | q in w.runs ensures Provenance(c, w', q, w'.runs[q]) {
      ProvenanceFrame(c, w, w', q, w.runs[q]);
    }
  }

  lemma ApplyKeepsProvenance(c: Codec, w: World, a: Action)
    requires Sound(c) && RunsInv(w) && ProvenanceInv(c, w)
    ensures ProvenanceInv(c, Apply(c, w, a))
  {
    hide Sound, ProvenanceInv, StepRun, RunInv;
    match a
    case Begin(_, _, _) => BeginKeepsProvenance(c, w, a);
    case Step(r, x) => if r in w.runs { StepKeepsProvenance(c, w, r, x); }
    case _ => OutsidersKeepProvenance(c, w, a);
  }

  lemma OutsidersTouch(c: Codec, w: World, a: Action)
    requires !a.Begin? && !a.Step?
    ensures var w' := Apply(c, w, a); w'.runs == w.runs && w'.commits == w.commits && w'.sessions == w.sessions
  {
  }

  lemma {:induction false} ExecKeepsProvenance(c: Codec, w0: World, actions: seq<Action>)
    requires Sound(c) && Initial(w0)
    ensures ProvenanceInv(c, Exec(c, w0, actions)) && RunsInv(Exec(c, w0, actions))
    decreases |actions|
  {
    if actions != [] {
      var before := actions[..|actions| - 1];
      ExecKeepsProvenance(c, w0, before);
      ExecKeepsLocks(c, w0, actions);
      ApplyKeepsProvenance(c, Exec(c, w0, before), actions[|actions| - 1]);
    }
  }

  /** What `run` passed on is the captured state of some other run of its session, committed
      before `run` was loaded, whose final reference is the one `run` started from. */
  ghost predicate FromEarlierCommit(w: World, r: RunId, run: Run) {
    exists i :: 0 <= i < run.seen && i < |w.commits| && w.commits[i].run != r
                && w.commits[i].session == run.session && w.commits[i].finalRef == run.prior
                && run.passed == Some(w.commits[i].finalState)
  }

  /** The provenance theorem.  Over every interleaving, with outsiders rewriting or deleting
      any snapshot at any time: what a run passes to `new_context` is nothing (persistence
      off), the empty state of its engine (the session had no final state when it was
      loaded), or exactly the state that an earlier run of the same session captured and
      committed; in every other case the run never launches a browser. */
  lemma StateHasProvenance(c: Codec, w0: World, actions: seq<Action>, r: RunId)
    requires Sound(c) && Initial(w0) && r in Exec(c, w0, actions).runs
    ensures var w := Exec(c, w0, actions);
            var run := w.runs[r];
            && (!run.runtime.Absent? ==> run.start.Some?)
            && (run.passed.Some? ==>
                  if !run.config.persist then run.passed == Some(None)
                  else if run.prior.None? then run.passed == Some(Some(BrowserState(run.config.engine, [])))
                  else FromEarlierCommit(w, r, run))
  {
    ExecKeepsProvenance(c, w0, actions);
    var w := Exec(c, w0, actions);
    var run := w.runs[r];
    assert RunInv(run) && Provenance(c, w, r, run);
    if run.passed.Some? && run.config.persist && run.prior.Some? {
      var i :| 0 <= i < run.seen && w.commits[i].session == run.session
        && w.commits[i].finalRef == Some(run.prior.value) && w.commits[i].finalState == Some(run.start.value);
      assert w.commits[i].run != r;
      assert FromEarlierCommit(w, r, run);
    }
  }

  // ------------------------------------------------------------------
  // When a run starts from the latest final state
  // ------------------------------------------------------------------

  ghost predicate Distinct(commits: seq<Commit>) {
    forall i, j :: 0 <= i < j < |commits| ==> commits[i].run != commits[j].run
  }

  /** A run commits at most once. */
  ghost predicate CommitOnce(w: World) { Distinct(w.commits) }

  lemma DistinctAppend(commits: seq<Commit>, k: Commit)
    requires Distinct(commits) && forall i :: 0 <= i < |commits| ==> commits[i].run != k.run
    ensures Distinct(commits + [k])
  {
  }

  lemma UncommittedIsAbsent(c: Codec, w: World, r: RunId)
    requires ProvenanceInv(c, w) && r in w.runs && !w.runs[r].committed
    ensures forall i :: 0 <= i < |w.commits| ==> w.commits[i].run != r
    ensures w.runs[r].session in w.sessions
  {
    assert Provenance(c, w, r, w.runs[r]);
    hide LatestAt, CommitInv;
  }

  lemma StepKeepsCommitOnce(c: Codec, w: World, r: RunId, x: Input)
    requires RunsInv(w) && ProvenanceInv(c, w) && CommitOnce(w) && r in w.runs
    ensures CommitOnce(StepRun(c, w, r, x))
  {
    assert RunInv(w.runs[r]);
    assert w.runs[r].session in w.sessions by { assert Provenance(c, w, r, w.runs[r]); hide LatestAt; }
    CommitStep(c, w, r, x);
    hide StepRun, NextRun, LatestAt, RunInv, CommitInv, ProvenanceInv, Provenance, RunsInv, Distinct;
    if StepRun(c, w, r, x).commits != w.commits {
      UncommittedIsAbsent(c, w, r);
      var next := NextRun(c, w, r, w.runs[r], x);
      DistinctAppend(w.commits, Commit(r, w.runs[r].session, next.finalRef, next.captured));
    }
  }

  lemma ApplyKeepsCommitOnce(c: Codec, w: World, a: Action)
    requires RunsInv(w) && ProvenanceInv(c, w) && CommitOnce(w)
    ensures CommitOnce(Apply(c, w, a))
  {
    hide StepRun, ProvenanceInv, RunsInv;
    if a.Step? && a.run in w.runs { StepKeepsCommitOnce(c, w, a.run, a.input); }
  }

  lemma {:induction false} ExecKeepsCommitOnce(c: Codec, w0: World, actions: seq<Action>)
    requires Sound(c) && Initial(w0)
    ensures CommitOnce(Exec(c, w0, actions))
    decreases |actions|
  {
    if actions != [] {
      var before := actions[..|actions| - 1];
      ExecKeepsCommitOnce(c, w0, before);
      ExecKeepsProvenance(c, w0, before);
      ApplyKeepsCommitOnce(c, Exec(c, w0, before), actions[|actions| - 1]);
    }
  }

  /** With capturing on, every commit carries a final reference into the run's own slot. */
  lemma CommitsCarryOwnRef(c: Codec, w: World, i: nat)
    requires RunsInv(w) && ProvenanceInv(c, w) && i < |w.commits|
    requires var k := w.commits[i];
             k.session in w.sessions && w.sessions[k.session].config.persist && w.sessions[k.session].config.captureFinal
    ensures var k := w.commits[i];
            k.finalRef.Some? && k.finalRef.value.slot.run == k.run && k.finalRef.value.slot.final
  {
    var k := w.commits[i];
    assert CommitInv(c, w, k);
    assert Provenance(c, w, k.run, w.runs[k.run]) && RunInv(w.runs[k.run]);
    hide LatestAt, Canonical, ResourcesFit;
  }

  /** Among the last commits of a session, where the latest reference comes from. */
  lemma {:induction false} LatestSince(commits: seq<Commit>, seen: nat, n: nat, session: SessionId)
    requires seen <= n <= |commits|
    ensures (forall i :: seen <= i < n ==> commits[i].session != session)
            ==> LatestAt(commits, n, session) == LatestAt(commits, seen, session)
    ensures (exists i :: seen <= i < n && commits[i].session == session)
            ==> exists i :: seen <= i < n && commits[i].session == session
                  && LatestAt(commits, n, session) == commits[i].finalRef
  {
    if n > seen && commits[n - 1].session != session { LatestSince(commits, seen, n - 1, session); }
  }

  lemma LaterCommitMovesLatest(c: Codec, w: World, session: SessionId, seen: nat)
    requires RunsInv(w) && ProvenanceInv(c, w) && CommitOnce(w) && seen <= |w.commits|
    requires session in w.sessions && w.sessions[session].config.persist && w.sessions[session].config.captureFinal
    requires exists i :: seen <= i < |w.commits| && w.commits[i].session == session
    ensures LatestAt(w.commits, |w.commits|, session) != LatestAt(w.commits, seen, session)
  {
    hide RunInv, CommitInv, Provenance, ProvenanceInv, RunsInv, LatestAt;
    LatestSince(w.commits, seen, |w.commits|, session);
    var j :| seen <= j < |w.commits| && w.commits[j].session == session
      && LatestAt(w.commits, |w.commits|, session) == w.commits[j].finalRef;
    CommitsCarryOwnRef(c, w, j);
    if LatestAt(w.commits, seen, session).Some? {
      LatestIsACommit(w.commits, seen, session);
      var h :| 0 <= h < seen && w.commits[h].session == session
        && w.commits[h].finalRef == LatestAt(w.commits, seen, session);
      CommitsCarryOwnRef(c, w, h);
    }
  }

  /** "Each run starts from the previous run's final state" holds exactly when no run of the
      session committed since this one loaded the session.  The session is loaded before the
      profile lock is taken and committed after it is released, so the lock alone does not
      give it. */
  lemma StartsFromLatestIffNoOverlap(c: Codec, w0: World, actions: seq<Action>, r: RunId)
    requires Sound(c) && Initial(w0) && r in Exec(c, w0, actions).runs
    requires Exec(c, w0, actions).runs[r].config.persist && Exec(c, w0, actions).runs[r].config.captureFinal
    ensures var w := Exec(c, w0, actions);
            var run := w.runs[r];
            && run.session in w.sessions
            && (run.prior == w.sessions[run.session].latestFinal
                <==> forall i :: run.seen <= i < |w.commits| ==> w.commits[i].session != run.session)
  {
    var w := Exec(c, w0, actions);
    var run := w.runs[r];
    ExecKeepsProvenance(c, w0, actions);
    ExecKeepsCommitOnce(c, w0, actions);
    assert Provenance(c, w, r, run);
    LatestSince(w.commits, run.seen, |w.commits|, run.session);
    hide RunInv, Provenance, Exec, CommitInv, LatestAt;
    if exists i :: run.seen <= i < |w.commits| && w.commits[i].session == run.session {
      LaterCommitMovesLatest(c, w, run.session, run.seen);
    }
  }

  // ------------------------------------------------------------------
  // An undisturbed run succeeds; two overlapping ones start from the same state
  // ------------------------------------------------------------------

  function Drive(c: Codec, w: World, r: RunId, x: Input, n: nat): World {
    if n == 0 then w else Apply(c, Drive(c, w, r, x, n - 1), Step(r, x))
  }

  function Repeat(a: Action, n: nat): seq<Action> { seq(n, _ => a) }

  lemma {:induction false} DriveIsExec(c: Codec, w: World, before: seq<Action>, r: RunId, x: Input, n: nat)
    ensures Exec(c, w, before + Repeat(Step(r, x), n)) == Drive(c, Exec(c, w, before), r, x, n)
  {
    hide Apply;
    var all := before + Repeat(Step(r, x), n);
    if n == 0 {
      assert all == before;
    } else {
      DriveIsExec(c, w, before, r, x, n - 1);
      assert all[..|all| - 1] == before + Repeat(Step(r, x), n - 1) && all[|all| - 1] == Step(r, x);
    }
  }

  lemma {:induction false} DriveMore(c: Codec, w: World, r: RunId, x: Input, m: nat, n: nat)
    ensures Drive(c, w, r, x, m + n) == Drive(c, Drive(c, w, r, x, m), r, x, n)
  {
    hide Apply;
    if n > 0 { DriveMore(c, w, r, x, m, n - 1); }
  }

  /** The world with one run, the locks and the files replaced. */
  function Now(w: World, r: RunId, run: Run, locked: set<ProfileId>, files: map<Slot, Bytes>): World {
    w.(runs := w.runs[r := run], locked := locked, files := files)
  }

  lemma NowIs(w: World, r: RunId, run: Run, locked: set<ProfileId>, files: map<Slot, Bytes>)
    ensures var w' := Now(w, r, run, locked, files);
            && r in w'.runs && w'.runs[r] == run && w'.locked == locked && w'.files == files
            && w'.sessions == w.sessions && w'.commits == w.commits && w'.outside == w.outside
            && w'.runs == w.runs[r := run] && Put(w', r, run) == w'
    ensures Now(w, r, run, w.locked, w.files) == Put(w, r, run)
  {
  }

  lemma NowNow(w: World, r: RunId, run: Run, locked: set<ProfileId>, files: map<Slot, Bytes>,
               run': Run, locked': set<ProfileId>, files': map<Slot, Bytes>)
    ensures Now(Now(w, r, run, locked, files), r, run', locked', files') == Now(w, r, run', locked', files')
    ensures Put(Now(w, r, run, locked, files), r, run') == Now(w, r, run', locked, files)
  {
    assert w.runs[r := run][r := run'] == w.runs[r := run'];
  }

  function Put(w: World, r: RunId, run: Run): World { w.(runs := w.runs[r := run]) }

  /** A step that neither touches locks nor files nor rows. */
  lemma QuietStep(c: Codec, w: World, r: RunId, x: Input, next: Run)
    requires r in w.runs && NextRun(c, w, r, w.runs[r], x) == next && next.lock == w.runs[r].lock
    requires !w.runs[r].stage.AtInitial? && !w.runs[r].stage.AtCapture? && !w.runs[r].stage.AtPersist?
    ensures Apply(c, w, Step(r, x)) == Put(w, r, next)
  {
    hide NextRun, ReadState, Empty;
  }

  /** The same, after `n` steps that only changed the run. */
  lemma QuietMore(c: Codec, w: World, r: RunId, x: Input, n: nat, now: Run, next: Run)
    requires r in w.runs && Drive(c, w, r, x, n) == Put(w, r, now)
    requires NextRun(c, Put(w, r, now), r, now, x) == next && next.lock == now.lock
    requires !now.stage.AtInitial? && !now.stage.AtCapture? && !now.stage.AtPersist?
    ensures Drive(c, w, r, x, n + 1) == Put(w, r, next)
  {
    hide NextRun, Apply;
    QuietStep(c, Put(w, r, now), r, x, next);
  }

  /** No step raises, the release really releases, and the plan's output is safe. */
  predicate Smooth(x: Input) { !x.fails && !x.stuck && !x.unsafe && !x.scope }

  lemma LockStep(c: Codec, w: World, r: RunId, x: Input)
    requires r in w.runs && w.runs[r].stage.AtLock? && w.runs[r].lock.Absent? && Smooth(x)
    requires w.runs[r].profile !in w.locked
    ensures var run := w.runs[r];
            Apply(c, w, Step(r, x))
              == Now(w, r, run.(stage := AtLayout, lock := Live, log := run.log + [Acquired]), w.locked + {run.profile}, w.files)
  {
    var run := w.runs[r];
    assert NextRun(c, w, r, run, x) == run.(stage := AtLayout, lock := Live, log := run.log + [Acquired]);
    hide NextRun, ReadState, Empty;
  }

  lemma InitialStep(c: Codec, w: World, r: RunId, x: Input)
    requires r in w.runs && w.runs[r].stage.AtInitial? && w.runs[r].start.Some? && Smooth(x)
    requires w.runs[r].initialRef.None? && Slot(w.runs[r].profile, r, false) !in w.files
    ensures var run := w.runs[r];
            Apply(c, w, Step(r, x))
              == Now(w, r, run.(stage := AtLaunch, initialRef := InitialRef(c, r, run)), w.locked, InitialFiles(c, w.files, r, run))
  {
    hide RefTo, ReadState, Empty;
    var run := w.runs[r];
    assert NextRun(c, w, r, run, x) == run.(stage := AtLaunch, initialRef := InitialRef(c, r, run));
    hide NextRun;
  }

  function InitialRef(c: Codec, r: RunId, run: Run): Option<Ref>
    requires run.start.Some?
  {
    if WritesInitial(run) then Some(RefTo(c, Slot(run.profile, r, false), run.start.value)) else None
  }

  function InitialFiles(c: Codec, files: map<Slot, Bytes>, r: RunId, run: Run): map<Slot, Bytes>
    requires run.start.Some?
  {
    if WritesInitial(run) then files[Slot(run.profile, r, false) := c.encode(run.start.value)] else files
  }

  /** The state a smooth run captures, and the reference it stores. */
  function FinalState(run: Run, x: Input): Option<BrowserState> {
    if run.config.persist && run.config.captureFinal then Some(x.state) else None
  }

  function FinalRef(c: Codec, r: RunId, run: Run, x: Input): Option<Ref> {
    if run.config.persist && run.config.captureFinal then Some(RefTo(c, Slot(run.profile, r, true), x.state)) else None
  }

  function FinalFiles(c: Codec, files: map<Slot, Bytes>, r: RunId, run: Run, x: Input): map<Slot, Bytes> {
    if run.config.persist && run.config.captureFinal then files[Slot(run.profile, r, true) := c.encode(x.state)] else files
  }

  /** The run after a capture that did not fail, if there was anything to capture; how it
      looks once its resources are closed; and once everything is behind it. */
  function CapturedRun(c: Codec, r: RunId, run: Run, x: Input): Run {
    run.(stage := AtCloseContext, tried := WritesFinal(run), log := CaptureLog(run),
         finalRef := FinalRef(c, r, run, x), captured := FinalState(run, x))
  }

  function CaptureLog(run: Run): seq<Event> { if WritesFinal(run) then run.log + [Captured] else run.log }

  function ClosedRun(c: Codec, r: RunId, run: Run, x: Input): Run {
    run.(stage := AtRelease, tried := WritesFinal(run), context := Ended, runtime := Ended,
         finalRef := FinalRef(c, r, run, x), captured := FinalState(run, x),
         log := CaptureLog(run) + [ContextClosed] + [RuntimeClosed])
  }

  function FinishedRun(c: Codec, r: RunId, run: Run, x: Input): Run {
    run.(stage := Done, tried := WritesFinal(run), context := Ended, runtime := Ended, lock := Ended,
         finalRef := FinalRef(c, r, run, x), captured := FinalState(run, x), transacted := true, committed := true,
         log := CaptureLog(run) + [ContextClosed] + [RuntimeClosed] + [Released] + [Transaction])
  }

  lemma CaptureStep(c: Codec, w: World, r: RunId, x: Input)
    requires r in w.runs && w.runs[r].stage.AtCapture? && w.runs[r].context.Live? && !w.runs[r].tried && Smooth(x)
    requires w.runs[r].finalRef.None? && w.runs[r].captured.None? && Slot(w.runs[r].profile, r, true) !in w.files
    ensures var run := w.runs[r];
            Apply(c, w, Step(r, x)) == Now(w, r, CapturedRun(c, r, run, x), w.locked, FinalFiles(c, w.files, r, run, x))
  {
    hide RefTo, ReadState, Empty;
    assert NextRun(c, w, r, w.runs[r], x) == CapturedRun(c, r, w.runs[r], x);
    hide NextRun;
  }

  lemma ReleaseStep(c: Codec, w: World, r: RunId, x: Input)
    requires r in w.runs && w.runs[r].stage.AtRelease? && w.runs[r].lock.Live? && Smooth(x)
    requires w.runs[r].entered && !w.runs[r].failed && !w.runs[r].cleanupFailed
    ensures var run := w.runs[r];
            Apply(c, w, Step(r, x))
              == Now(w, r, run.(stage := AtPersist, lock := Ended, log := run.log + [Released]), w.locked - {run.profile}, w.files)
  {
    var run := w.runs[r];
    assert NextRun(c, w, r, run, x) == run.(stage := AtPersist, lock := Ended, log := run.log + [Released]);
    hide NextRun, ReadState, Empty;
  }

  /** The rows of a committed run. */
  function Recorded(w: World, r: RunId, run: Run): World
    requires run.session in w.sessions
  {
    w.(sessions := w.sessions[run.session :=
         w.sessions[run.session].(latestInitial := run.initialRef, latestFinal := run.finalRef)],
       commits := w.commits + [Commit(r, run.session, run.finalRef, run.captured)])
  }

  lemma PersistStep(c: Codec, w: World, r: RunId, x: Input)
    requires r in w.runs && w.runs[r].stage.AtPersist? && !w.runs[r].lock.Live? && Smooth(x)
    requires w.runs[r].session in w.sessions
    ensures var run := w.runs[r];
            Apply(c, w, Step(r, x)) ==
              Recorded(Put(w, r, run.(stage := Done, transacted := true, committed := true, log := run.log + [Transaction])),
                       r, run)
  {
    var run := w.runs[r];
    assert NextRun(c, w, r, run, x)
      == run.(stage := Done, transacted := true, committed := true, log := run.log + [Transaction]);
    hide NextRun, ReadState, Empty;
  }

  /** A fresh run that nothing stands in the way of. */
  predicate Ready(c: Codec, w: World, r: RunId) {
    && r in w.runs && w.runs[r].session in w.sessions
    && w.runs[r] == Loaded(w, w.runs[r].session, w.runs[r].initializers).(
                      seen := w.runs[r].seen, prior := w.runs[r].prior)
    && w.runs[r].profile !in w.locked && ResolvePrior(c, w.files, w.runs[r]).Some?
    && Slot(w.runs[r].profile, r, false) !in w.files && Slot(w.runs[r].profile, r, true) !in w.files
  }

  /** What the run has become when the initial snapshot is next, and when the initializers are. */
  function ResolvedRun(c: Codec, w: World, r: RunId): Run
    requires r in w.runs
  {
    var run := w.runs[r];
    run.(stage := AtInitial, lock := Live, start := ResolvePrior(c, w.files, run), log := run.log + [Acquired])
  }

  function EnteredRun(c: Codec, r: RunId, run: Run): Run
    requires run.start.Some?
  {
    run.(stage := AtInitializers, runtime := Live, context := Live, entered := true,
         initialRef := InitialRef(c, r, run), passed := Some(if run.config.persist then run.start else None),
         log := run.log + [Launched] + [Opened])
  }

  lemma DriveResolves(c: Codec, w: World, r: RunId, x: Input)
    requires Ready(c, w, r) && Smooth(x)
    ensures Drive(c, w, r, x, 3) == Now(w, r, ResolvedRun(c, w, r), w.locked + {w.runs[r].profile}, w.files)
  {
    var run := w.runs[r];
    assert Drive(c, w, r, x, 0) == w;
    assert forall n :: 0 <= n < 3 ==> Drive(c, w, r, x, n + 1) == Apply(c, Drive(c, w, r, x, n), Step(r, x));
    hide Apply, Drive, ReadState, Empty;
    LockStep(c, w, r, x);
    var w1 := Drive(c, w, r, x, 1);
    QuietStep(c, w1, r, x, w1.runs[r].(stage := AtPrior));
    var w2 := Drive(c, w, r, x, 2);
    var next := ResolvedRun(c, w, r);
    assert NextRun(c, w2, r, w2.runs[r], x) == next;
    hide NextRun;
    QuietStep(c, w2, r, x, next);
  }

  lemma NextOpenings(c: Codec, w: World, r: RunId, run: Run, x: Input)
    requires Smooth(x) && (run.stage.AtLaunch? || run.stage.AtContext? || run.stage.AtRecords?)
    ensures NextRun(c, w, r, run, x)
              == if run.stage.AtLaunch? then run.(stage := AtContext, runtime := Live, log := run.log + [Launched])
                 else if run.stage.AtContext? then
                   run.(stage := AtRecords, context := Live, log := run.log + [Opened],
                        passed := Some(if run.config.persist then run.start else None))
                 else run.(stage := AtInitializers, entered := true)
  {
  }

  lemma DriveOpens(c: Codec, w: World, r: RunId, x: Input)
    requires r in w.runs && w.runs[r].stage.AtLaunch? && Smooth(x)
    ensures var run := w.runs[r];
            Drive(c, w, r, x, 3) ==
              Put(w, r, run.(stage := AtInitializers, runtime := Live, context := Live, entered := true,
                             passed := Some(if run.config.persist then run.start else None),
                             log := run.log + [Launched] + [Opened]))
  {
    var run := w.runs[r];
    assert Drive(c, w, r, x, 0) == w == Put(w, r, run);
    hide Drive, NextRun, Put;
    var run1 := NextRun(c, Put(w, r, run), r, run, x);
    NextOpenings(c, Put(w, r, run), r, run, x);
    QuietMore(c, w, r, x, 0, run, run1);
    var run2 := NextRun(c, Put(w, r, run1), r, run1, x);
    NextOpenings(c, Put(w, r, run1), r, run1, x);
    QuietMore(c, w, r, x, 1, run1, run2);
    NextOpenings(c, Put(w, r, run2), r, run2, x);
    QuietMore(c, w, r, x, 2, run2, NextRun(c, Put(w, r, run2), r, run2, x));
  }

  lemma DriveEnters(c: Codec, w: World, r: RunId, x: Input)
    requires r in w.runs && w.runs[r].stage.AtInitial? && w.runs[r].start.Some? && Smooth(x)
    requires w.runs[r].initialRef.None? && Slot(w.runs[r].profile, r, false) !in w.files
    ensures Drive(c, w, r, x, 4) == Now(w, r, EnteredRun(c, r, w.runs[r]), w.locked, InitialFiles(c, w.files, r, w.runs[r]))
  {
    var run, files := w.runs[r], InitialFiles(c, w.files, r, w.runs[r]);
    var run1 := run.(stage := AtLaunch, initialRef := InitialRef(c, r, run));
    var w1 := Now(w, r, run1, w.locked, files);
    assert Drive(c, w, r, x, 1) == Apply(c, w, Step(r, x)) by { hide Apply; assert Drive(c, w, r, x, 0) == w; }
    hide Apply, Drive, InitialRef, RefTo;
    InitialStep(c, w, r, x);
    NowIs(w, r, run1, w.locked, files);
    DriveMore(c, w, r, x, 1, 3);
    hide Now, Put;
    DriveOpens(c, w1, r, x);
    NowNow(w, r, run1, w.locked, files, EnteredRun(c, r, run), w.locked, files);
  }

  lemma NextWorks(c: Codec, w: World, r: RunId, run: Run, x: Input)
    requires Smooth(x) && (run.stage.AtInitializers? || run.stage.AtPlan?)
    ensures NextRun(c, w, r, run, x) == NextWork(run, x)
  {
    hide NextWork;
  }

  lemma {:induction false} DriveInitializers(c: Codec, w: World, r: RunId, x: Input, n: nat) returns (log: seq<Event>)
    requires r in w.runs && w.runs[r].stage.AtInitializers? && Smooth(x) && !w.runs[r].failed && w.runs[r].ran == 0
    requires n <= w.runs[r].initializers
    ensures Drive(c, w, r, x, n) == Put(w, r, w.runs[r].(ran := n, log := log))
  {
    hide *;
    var run := w.runs[r];
    if n == 0 {
      log := run.log;
      DriveNone(c, w, r, x);
    } else {
      var before := DriveInitializers(c, w, r, x, n - 1);
      var now := run.(ran := n - 1, log := before);
      NextInitializer(c, Put(w, r, now), r, now, x);
      log := before + [Initialized(n - 1)];
      QuietMore(c, w, r, x, n - 1, now, run.(ran := n, log := log));
    }
  }

  lemma DriveNone(c: Codec, w: World, r: RunId, x: Input)
    requires r in w.runs
    ensures Drive(c, w, r, x, 0) == Put(w, r, w.runs[r])
  {
    assert w.runs == w.runs[r := w.runs[r]];
  }

  lemma NextInitializer(c: Codec, w: World, r: RunId, run: Run, x: Input)
    requires Smooth(x) && run.stage.AtInitializers? && run.ran < run.initializers && !run.failed
    ensures NextRun(c, w, r, run, x) == run.(ran := run.ran + 1, log := run.log + [Initialized(run.ran)])
  {
  }

  lemma DriveWorks(c: Codec, w: World, r: RunId, x: Input)
    requires r in w.runs && Smooth(x)
    requires var run := w.runs[r]; run.stage.AtInitializers? && run.ran == run.initializers && !run.failed
    ensures Drive(c, w, r, x, 2)
              == Put(w, r, w.runs[r].(stage := AtCapture, planned := true, log := w.runs[r].log + [Planned]))
  {
    var run := w.runs[r];
    assert Drive(c, w, r, x, 0) == w == Put(w, r, run);
    hide Drive, NextRun, Put;
    NextWorks(c, Put(w, r, run), r, run, x);
    var run1 := run.(stage := AtPlan);
    QuietMore(c, w, r, x, 0, run, run1);
    NextWorks(c, Put(w, r, run1), r, run1, x);
    QuietMore(c, w, r, x, 1, run1, NextRun(c, Put(w, r, run1), r, run1, x));
  }

  lemma NextCloses(c: Codec, w: World, r: RunId, run: Run, x: Input)
    requires Smooth(x)
    requires (run.stage.AtCloseContext? && run.context.Live?) || (run.stage.AtCloseRuntime? && run.runtime.Live?)
    ensures NextRun(c, w, r, run, x)
              == if run.stage.AtCloseContext?
                 then run.(stage := AtCloseRuntime, context := Ended, log := run.log + [ContextClosed])
                 else run.(stage := AtRelease, runtime := Ended, log := run.log + [RuntimeClosed])
  {
  }

  lemma DriveCloses(c: Codec, w: World, r: RunId, x: Input)
    requires r in w.runs && Smooth(x)
    requires w.runs[r].stage.AtCloseContext? && w.runs[r].runtime.Live? && w.runs[r].context.Live?
    ensures var run := w.runs[r];
            Drive(c, w, r, x, 2) == Put(w, r, run.(stage := AtRelease, context := Ended, runtime := Ended,
                                                   log := run.log + [ContextClosed] + [RuntimeClosed]))
  {
    var run := w.runs[r];
    assert Drive(c, w, r, x, 0) == w == Put(w, r, run);
    hide Drive, NextRun, Put;
    NextCloses(c, Put(w, r, run), r, run, x);
    var run1 := NextRun(c, Put(w, r, run), r, run, x);
    QuietMore(c, w, r, x, 0, run, run1);
    NextCloses(c, Put(w, r, run1), r, run1, x);
    QuietMore(c, w, r, x, 1, run1, NextRun(c, Put(w, r, run1), r, run1, x));
  }

  lemma DriveLeaves(c: Codec, w: World, r: RunId, x: Input)
    requires r in w.runs && Smooth(x) && w.runs[r].session in w.sessions
    requires var run := w.runs[r];
             && run.stage.AtRelease? && run.lock.Live? && run.entered && !run.failed && !run.cleanupFailed
    ensures var run := w.runs[r];
            Drive(c, w, r, x, 2) ==
              Recorded(Now(w, r, run.(stage := Done, lock := Ended, transacted := true, committed := true,
                                      log := run.log + [Released] + [Transaction]),
                           w.locked - {run.profile}, w.files), r, run)
  {
    var run := w.runs[r];
    var run1 := run.(stage := AtPersist, lock := Ended, log := run.log + [Released]);
    var w1 := Now(w, r, run1, w.locked - {run.profile}, w.files);
    assert Drive(c, w, r, x, 1) == Apply(c, w, Step(r, x)) by { hide Apply; assert Drive(c, w, r, x, 0) == w; }
    assert Drive(c, w, r, x, 2) == Apply(c, Drive(c, w, r, x, 1), Step(r, x)) by { hide Apply; }
    hide Apply, Drive;
    ReleaseStep(c, w, r, x);
    NowIs(w, r, run1, w.locked - {run.profile}, w.files);
    hide Now, Put;
    PersistStep(c, w1, r, x);
    var run2 := run1.(stage := Done, transacted := true, committed := true, log := run1.log + [Transaction]);
    NowNow(w, r, run1, w.locked - {run.profile}, w.files, run2, w.locked - {run.profile}, w.files);
  }

  /** Run `r`, whose prior state is `s`, has gone from `w` to `w'` by itself: it is done and
      committed, passed `s` on, gave its lock back, wrote exactly the snapshots it was asked
      for, and made the state it captured the session's latest. */
  ghost predicate CommittedBy(c: Codec, w: World, w': World, r: RunId, x: Input, s: BrowserState) {
    && r in w.runs && r in w'.runs && w.runs[r].session in w.sessions
    && var run, run' := w.runs[r], w'.runs[r];
       var first, last := Slot(run.profile, r, false), Slot(run.profile, r, true);
       var initial := if run.config.persist && run.config.captureInitial
                      then Some(Ref(first, c.hash(c.encode(s)), |c.encode(s)|)) else None;
       var final := if run.config.persist && run.config.captureFinal
                    then Some(Ref(last, c.hash(c.encode(x.state)), |c.encode(x.state)|)) else None;
       && w'.runs == w.runs[r := run'] && w'.outside == w.outside
       && run'.stage.Done? && run'.committed && run'.ran == run.initializers
       && run'.passed == Some(if run.config.persist then Some(s) else None)
       && w'.locked == w.locked - {run.profile}
       && w'.commits
            == w.commits + [Commit(r, run.session, final, if final.Some? then Some(x.state) else None)]
       && w'.sessions == w.sessions[run.session :=
            w.sessions[run.session].(latestInitial := initial, latestFinal := final)]
       && var started := if initial.Some? then w.files[first := c.encode(s)] else w.files;
          w'.files == if final.Some? then started[last := c.encode(x.state)] else started
  }

  lemma DriveToInitializers(c: Codec, w: World, r: RunId, x: Input)
    requires Ready(c, w, r) && Smooth(x)
    ensures var run := ResolvedRun(c, w, r);
            Drive(c, w, r, x, 7)
              == Now(w, r, EnteredRun(c, r, run), w.locked + {run.profile}, InitialFiles(c, w.files, r, run))
  {
    hide ResolvePrior, Drive, InitialRef, RefTo, InitialFiles;
    var run, locked := ResolvedRun(c, w, r), w.locked + {w.runs[r].profile};
    DriveResolves(c, w, r, x);
    DriveMore(c, w, r, x, 3, 4);
    NowIs(w, r, run, locked, w.files);
    hide Now, Put;
    DriveEnters(c, Now(w, r, run, locked, w.files), r, x);
    NowNow(w, r, run, locked, w.files, EnteredRun(c, r, run), locked, InitialFiles(c, w.files, r, run));
  }

  lemma DriveWorksOn(c: Codec, w: World, r: RunId, x: Input, now: Run)
    requires Smooth(x) && now.stage.AtInitializers? && now.ran == now.initializers && !now.failed
    ensures Drive(c, Put(w, r, now), r, x, 2)
              == Put(w, r, now.(stage := AtCapture, planned := true, log := now.log + [Planned]))
  {
    var next := now.(stage := AtCapture, planned := true, log := now.log + [Planned]);
    NowIs(w, r, now, w.locked, w.files);
    NowIs(w, r, next, w.locked, w.files);
    NowNow(w, r, now, w.locked, w.files, next, w.locked, w.files);
    hide Put, Now, Drive;
    DriveWorks(c, Now(w, r, now, w.locked, w.files), r, x);
  }

  lemma DriveToCapture(c: Codec, w: World, r: RunId, x: Input) returns (log: seq<Event>)
    requires r in w.runs && w.runs[r].stage.AtInitializers? && Smooth(x) && !w.runs[r].failed && w.runs[r].ran == 0
    ensures var run := w.runs[r];
            Drive(c, w, r, x, run.initializers + 2)
              == Put(w, r, run.(ran := run.initializers, stage := AtCapture, planned := true, log := log))
  {
    hide *;
    var run, n := w.runs[r], w.runs[r].initializers;
    var before := DriveInitializers(c, w, r, x, n);
    log := before + [Planned];
    DriveMore(c, w, r, x, n, 2);
    DriveWorksOn(c, w, r, x, run.(ran := n, log := before));
  }

  predicate AtCapturePoint(w: World, r: RunId) {
    && r in w.runs && w.runs[r].session in w.sessions
    && var run := w.runs[r];
       && run.stage.AtCapture? && run.lock.Live? && run.runtime.Live? && run.context.Live?
       && run.entered && !run.failed && !run.cleanupFailed && !run.tried
       && run.finalRef.None? && run.captured.None? && Slot(run.profile, r, true) !in w.files
  }

  lemma DriveToRelease(c: Codec, w: World, r: RunId, x: Input)
    requires AtCapturePoint(w, r) && Smooth(x)
    ensures Drive(c, w, r, x, 3)
              == Now(w, r, ClosedRun(c, r, w.runs[r], x), w.locked, FinalFiles(c, w.files, r, w.runs[r], x))
  {
    var run, files := w.runs[r], FinalFiles(c, w.files, r, w.runs[r], x);
    var run1 := CapturedRun(c, r, run, x);
    assert Drive(c, w, r, x, 1) == Apply(c, w, Step(r, x)) by { hide Apply; assert Drive(c, w, r, x, 0) == w; }
    hide Apply, Drive, RefTo;
    CaptureStep(c, w, r, x);
    hide FinalFiles;
    DriveMore(c, w, r, x, 1, 2);
    NowIs(w, r, run1, w.locked, files);
    hide Now, Put;
    DriveCloses(c, Now(w, r, run1, w.locked, files), r, x);
    NowNow(w, r, run1, w.locked, files, ClosedRun(c, r, run, x), w.locked, files);
  }

  lemma ClosedFacts(c: Codec, r: RunId, run: Run, x: Input)
    ensures var closed, done := ClosedRun(c, r, run, x), FinishedRun(c, r, run, x);
            && closed.stage.AtRelease? && closed.lock == run.lock && closed.entered == run.entered
            && closed.failed == run.failed && closed.cleanupFailed == run.cleanupFailed
            && closed.session == run.session && closed.profile == run.profile
            && done.session == run.session && SameRecord(closed, done)
            && done == closed.(stage := Done, lock := Ended, transacted := true, committed := true,
                               log := closed.log + [Released] + [Transaction])
  {
    hide FinalRef, FinalState, WritesFinal, CaptureLog;
  }

  predicate SameRecord(a: Run, b: Run) {
    a.session == b.session && a.initialRef == b.initialRef && a.finalRef == b.finalRef && a.captured == b.captured
  }

  lemma RecordedAs(w: World, r: RunId, a: Run, b: Run)
    requires SameRecord(a, b) && a.session in w.sessions
    ensures b.session in w.sessions && Recorded(w, r, a) == Recorded(w, r, b)
  {
  }

  lemma DriveToEnd(c: Codec, w: World, r: RunId, x: Input)
    requires AtCapturePoint(w, r) && Smooth(x)
    ensures var run, done := w.runs[r], FinishedRun(c, r, w.runs[r], x);
            Drive(c, w, r, x, 5)
              == Recorded(Now(w, r, done, w.locked - {run.profile}, FinalFiles(c, w.files, r, run, x)), r, done)
  {
    var run, files := w.runs[r], FinalFiles(c, w.files, r, w.runs[r], x);
    var closed, done, freed := ClosedRun(c, r, run, x), FinishedRun(c, r, run, x), w.locked - {w.runs[r].profile};
    var w3 := Now(w, r, closed, w.locked, files);
    ClosedFacts(c, r, run, x);
    hide *;
    DriveMore(c, w, r, x, 3, 2);
    DriveToRelease(c, w, r, x);
    NowIs(w, r, closed, w.locked, files);
    DriveLeaves(c, w3, r, x);
    NowNow(w, r, closed, w.locked, files, done, freed, files);
    RecordedAs(Now(w, r, done, freed, files), r, closed, done);
  }

  /** A Ready run, driven to the end, in one equation. */
  lemma DriveAll(c: Codec, w: World, r: RunId, x: Input) returns (planned: Run)
    requires Ready(c, w, r) && Smooth(x)
    ensures var run, entered := w.runs[r], EnteredRun(c, r, ResolvedRun(c, w, r));
            && planned == entered.(ran := run.initializers, stage := AtCapture, planned := true, log := planned.log)
            && planned.session in w.sessions
            && var files, done := InitialFiles(c, w.files, r, ResolvedRun(c, w, r)), FinishedRun(c, r, planned, x);
               done.session in w.sessions
               && Drive(c, w, r, x, 14 + run.initializers)
                    == Recorded(Now(w, r, done, (w.locked + {run.profile}) - {run.profile},
                                    FinalFiles(c, files, r, planned, x)), r, done)
  {
    hide *;
    ReadyFacts(c, w, r);
    var run, n, start := w.runs[r], w.runs[r].initializers, ResolvedRun(c, w, r);
    var entered, locked, files := EnteredRun(c, r, start), w.locked + {run.profile}, InitialFiles(c, w.files, r, start);
    var w7 := Now(w, r, entered, locked, files);
    NowIs(w, r, entered, locked, files);
    DriveToInitializers(c, w, r, x);
    DriveMore(c, w, r, x, 7, n + 2);
    var log := DriveToCapture(c, w7, r, x);
    planned := entered.(ran := n, stage := AtCapture, planned := true, log := log);
    NowNow(w, r, entered, locked, files, planned, locked, files);
    NowIs(w, r, planned, locked, files);
    PlannedAtCapturePoint(c, w, r, planned);
    DriveMore(c, w, r, x, 9 + n, 5);
    DriveToEnd(c, Now(w, r, planned, locked, files), r, x);
    FinishedFacts(c, r, planned, x);
    var done, files' := FinishedRun(c, r, planned, x), FinalFiles(c, files, r, planned, x);
    NowNow(w, r, planned, locked, files, done, locked - {run.profile}, files');
  }

  lemma ReadyFacts(c: Codec, w: World, r: RunId)
    requires Ready(c, w, r)
    ensures r in w.runs && w.runs[r].session in w.sessions && ResolvedRun(c, w, r).start.Some?
    ensures var run, start := w.runs[r], ResolvedRun(c, w, r);
            var entered := EnteredRun(c, r, start);
            && start.profile == run.profile && entered.profile == run.profile && entered.session == run.session
            && entered.initializers == run.initializers && !entered.failed && entered.ran == 0
            && entered.stage.AtInitializers?
  {
    hide ResolvePrior, InitialRef;
  }

  lemma FinishedFacts(c: Codec, r: RunId, run: Run, x: Input)
    ensures FinishedRun(c, r, run, x).session == run.session
  {
    hide FinalRef, FinalState, WritesFinal, CaptureLog;
  }

  lemma PlannedAtCapturePoint(c: Codec, w: World, r: RunId, planned: Run)
    requires Ready(c, w, r)
    requires planned == EnteredRun(c, r, ResolvedRun(c, w, r)).(
                          ran := w.runs[r].initializers, stage := AtCapture, planned := true, log := planned.log)
    ensures AtCapturePoint(Now(w, r, planned, w.locked + {w.runs[r].profile},
                               InitialFiles(c, w.files, r, ResolvedRun(c, w, r))), r)
  {
    hide ResolvePrior, InitialRef;
  }

  /** Liveness: a fresh run on a free profile, whose prior snapshot can be read and whose
      every step succeeds, commits. */
  lemma ReadyRunCommits(c: Codec, w: World, r: RunId, x: Input, s: BrowserState)
    requires Ready(c, w, r) && Smooth(x) && ResolvePrior(c, w.files, w.runs[r]) == Some(s)
    ensures CommittedBy(c, w, Drive(c, w, r, x, 14 + w.runs[r].initializers), r, x, s)
  {
    var planned := DriveAll(c, w, r, x);
    hide Drive, ResolvePrior, Smooth;
  }

  /** Two runs of one fresh session: both load it, then run 0 runs to its end and run 1 enters. */
  function FreshSession(): World {
    World(map[0 := Session(0, Config(true, false, true, "firefox"), None, None)], {}, {}, map[], map[], [])
  }

  function Overlap(x: Input): seq<Action> {
    ([Begin(0, 0, 0), Begin(1, 0, 0)] + Repeat(Step(0, x), 14)) + Repeat(Step(1, x), 7)
  }

  predicate BothFresh(w: World) {
    w == FreshSession().(runs := map[0 := Loaded(FreshSession(), 0, 0), 1 := Loaded(FreshSession(), 0, 0)])
  }

  lemma BothLoaded(c: Codec)
    ensures var w := Exec(c, FreshSession(), [Begin(0, 0, 0), Begin(1, 0, 0)]);
            && BothFresh(w)
            && Ready(c, w, 0) && Ready(c, w, 1)
  {
    hide Empty;
    var w0 := FreshSession();
    var two := [Begin(0, 0, 0), Begin(1, 0, 0)];
    assert two[..1] == [Begin(0, 0, 0)] && two[..1][..0] == [];
    assert Exec(c, w0, two[..1]) == Apply(c, Exec(c, w0, two[..1][..0]), Begin(0, 0, 0));
    var w1 := Exec(c, w0, two[..1]);
    assert w1 == w0.(runs := map[0 := Loaded(w0, 0, 0)]);
    assert w1.runs[1 := Loaded(w1, 0, 0)] == map[0 := Loaded(w0, 0, 0), 1 := Loaded(w0, 0, 0)];
  }

  lemma SecondIsReady(c: Codec, w2: World, w3: World, x: Input)
    requires BothFresh(w2)
    requires CommittedBy(c, w2, w3, 0, x, BrowserState("firefox", []))
    ensures Ready(c, w3, 1) && 0 in w3.runs && 1 in w3.runs && w3.runs[0].committed && 0 in w3.sessions
    ensures w3.sessions[0].latestFinal == Some(RefTo(c, Slot(0, 0, true), x.state))
    ensures w3.runs[1].config.persist && ResolvePrior(c, w3.files, w3.runs[1]) == Some(BrowserState("firefox", []))
  {
    assert w3.runs[1] == Loaded(FreshSession(), 0, 0);
    FreshPrior(c, w3);
    hide ResolvePrior;
  }

  lemma FreshPrior(c: Codec, w: World)
    ensures ResolvePrior(c, w.files, Loaded(FreshSession(), 0, 0)) == Some(BrowserState("firefox", []))
  {
  }

  lemma EnteredPasses(c: Codec, w: World, r: RunId, x: Input)
    requires Ready(c, w, r) && Smooth(x)
    ensures var w' := Drive(c, w, r, x, 7);
            && r in w'.runs && w'.sessions == w.sessions
            && (forall q :: q in w.runs && q != r ==> q in w'.runs && w'.runs[q] == w.runs[q])
            && w'.runs[r].config == w.runs[r].config
            && w'.runs[r].passed == Some(if w.runs[r].config.persist then ResolvePrior(c, w.files, w.runs[r]) else None)
  {
    DriveToInitializers(c, w, r, x);
    hide ResolvePrior, InitialRef, Drive, InitialFiles, Smooth;
    var run := ResolvedRun(c, w, r);
    NowIs(w, r, EnteredRun(c, r, run), w.locked + {run.profile}, InitialFiles(c, w.files, r, run));
    hide Now;
  }

  lemma OverlapExec(c: Codec, x: Input)
    ensures Exec(c, FreshSession(), Overlap(x))
              == Drive(c, Drive(c, Exec(c, FreshSession(), [Begin(0, 0, 0), Begin(1, 0, 0)]), 0, x, 14), 1, x, 7)
  {
    hide Exec, Drive, Repeat, FreshSession;
    DriveIsExec(c, FreshSession(), [Begin(0, 0, 0), Begin(1, 0, 0)], 0, x, 14);
    DriveIsExec(c, FreshSession(), [Begin(0, 0, 0), Begin(1, 0, 0)] + Repeat(Step(0, x), 14), 1, x, 7);
  }

  /** Run 0 has committed and its state is the session's latest; run 1 started empty. */
  predicate StartedStale(c: Codec, w: World, x: Input) {
    && 0 in w.runs && 1 in w.runs && 0 in w.sessions
    && w.runs[0].committed
    && w.sessions[0].latestFinal == Some(Ref(Slot(0, 0, true), c.hash(c.encode(x.state)), |c.encode(x.state)|))
    && w.runs[1].passed == Some(Some(BrowserState("firefox", [])))
  }

  lemma OverlapDrive(c: Codec, w2: World, x: Input)
    requires Smooth(x) && Ready(c, w2, 0)
    requires BothFresh(w2)
    ensures StartedStale(c, Drive(c, Drive(c, w2, 0, x, 14), 1, x, 7), x)
  {
    hide *;
    FreshRunHasNoInitializers(c, w2);
    FreshPrior(c, w2);
    FreshRunIsLoaded(w2);
    ReadyRunCommits(c, w2, 0, x, BrowserState("firefox", []));
    var w3 := Drive(c, w2, 0, x, 14);
    SecondIsReady(c, w2, w3, x);
    EnteredPasses(c, w3, 1, x);
    StaleAfter(c, w3, Drive(c, w3, 1, x, 7), x);
  }

  lemma StaleAfter(c: Codec, w3: World, w4: World, x: Input)
    requires 0 in w3.runs && 1 in w3.runs && 0 in w3.sessions && w3.runs[0].committed && w3.runs[1].config.persist
    requires w3.sessions[0].latestFinal == Some(RefTo(c, Slot(0, 0, true), x.state))
    requires ResolvePrior(c, w3.files, w3.runs[1]) == Some(BrowserState("firefox", []))
    requires 0 in w4.runs && 1 in w4.runs && w4.sessions == w3.sessions && w4.runs[0] == w3.runs[0]
    requires w4.runs[1].config == w3.runs[1].config && w4.runs[1].passed == Some(ResolvePrior(c, w3.files, w3.runs[1]))
    ensures StartedStale(c, w4, x)
  {
  }

  /** The lock alone does not make a run start from the latest final state: here run 0 has
      committed its state before run 1 even takes the lock, and run 1 still starts empty. */
  lemma OverlapStartsStale(c: Codec, x: Input)
    requires Smooth(x)
    ensures Initial(FreshSession()) && StartedStale(c, Exec(c, FreshSession(), Overlap(x)), x)
  {
    assert Initial(FreshSession());
    hide *;
    BothLoaded(c);
    OverlapExec(c, x);
    OverlapDrive(c, Exec(c, FreshSession(), [Begin(0, 0, 0), Begin(1, 0, 0)]), x);
  }

  lemma FreshRunIsLoaded(w: World)
    requires BothFresh(w)
    ensures 0 in w.runs && w.runs[0] == Loaded(FreshSession(), 0, 0)
  {
  }

  lemma FreshRunHasNoInitializers(c: Codec, w: World)
    requires BothFresh(w)
    ensures 0 in w.runs && w.runs[0].initializers == 0
  {
  }
}
