/** `execute_managed_run`: one run from loading its session to the metadata transaction
    (ops/runs.py, ops/initializers.py, ops/surface.py). */
module Executor {
  import opened Text
  import opened RunEvents
  import opened ManagedContext

  // ------------------------------------------------------------------
  // The run surface and the initializer chain
  // ------------------------------------------------------------------

  function SecurityRefusal(text: string): Exc { Exc(Project, "SecurityRefusal", text) }

  /** What a plan may use; `loaded` counts the navigations that reached the page. */
  class RunSurface {
    var gotoCount: nat
    var loaded: nat

    constructor ()
      ensures gotoCount == 0 && loaded == 0
    {
      gotoCount, loaded := 0, 0;
    }

    method Navigate(fault: Option<Exc>) returns (raised: Option<Exc>)
      modifies this
      ensures if old(gotoCount) == 0
              then gotoCount == 1 && loaded == old(loaded) + 1 && raised == fault
              else gotoCount == old(gotoCount) && loaded == old(loaded) && raised.Some? && raised.value.kind.Project?
                   && raised.value.name == "SecurityRefusal"
    {
      if gotoCount != 0 { return Some(SecurityRefusal("exactly one navigation is permitted per run")); }
      gotoCount := gotoCount + 1;
      loaded := loaded + 1;
      raised := fault;
    }
  }

  /** A Python value as a plan may return it; `Other` is anything JSON has no form for. */
  datatype Python = Scalar | Text(s: string) | List(items: seq<Python>) | Dict(entries: seq<(Python, Python)>) | Other

  /** `_is_json_safe`. */
  predicate JsonSafe(v: Python) {
    match v
    case Scalar | Text(_) => true
    case List(items) => forall i :: 0 <= i < |items| ==> JsonSafe(items[i])
    case Dict(entries) => forall i :: 0 <= i < |entries| ==> entries[i].0.Text? && JsonSafe(entries[i].1)
    case Other => false
  }

  datatype PlanResult = PlanResult(diagnostics: seq<(ArtifactRef, int)>, extra: seq<(Python, Python)>)

  /** A plan: the navigations it attempts, each with what the page raises, and how it ends,
      having handled or passed on whatever they raised. */
  datatype Plan = Plan(navigations: seq<Option<Exc>>, end: PlanEnd)

  datatype PlanEnd = Returns(result: PlanResult) | Raises(error: Exc)

  /** Only the first navigation of a plan reaches the page, whatever the plan does with the
      refusals. */
  method RunPlan(plan: Plan, surface: RunSurface, trace: Trace) returns (refused: nat)
    requires surface.gotoCount == 0
    modifies surface, trace
    ensures trace.log == old(trace.log) + [Planned]
    ensures surface.loaded == old(surface.loaded) + (if plan.navigations == [] then 0 else 1)
    ensures refused + (surface.loaded - old(surface.loaded)) == |plan.navigations|
  {
    trace.log := trace.log + [Planned];
    refused := 0;
    for i := 0 to |plan.navigations|
      invariant trace.log == old(trace.log) + [Planned]
      invariant surface.loaded == old(surface.loaded) + (if i == 0 then 0 else 1)
      invariant surface.gotoCount == if i == 0 then 0 else 1
      invariant refused == if i == 0 then 0 else i - 1
    {
      var first := surface.gotoCount == 0;
      var raised := surface.Navigate(plan.navigations[i]);
      if !first { refused := refused + 1; }
    }
  }

  function InitializerEvents(n: nat): (events: seq<Event>)
    ensures |events| == n && forall i :: 0 <= i < n ==> events[i] == Initialized(i)
  {
    seq(n, i requires 0 <= i < n => Initialized(i))
  }

  /** How many initializers are awaited: those before the first that raises, and that one. */
  function Started(faults: seq<Option<Exc>>): nat {
    var k := FirstFailure(faults);
    if k < |faults| then k + 1 else k
  }

  /** `ContextInitializerChain.initialize`: in order, stopping at the first that raises. */
  method InitializeAll(faults: seq<Option<Exc>>, trace: Trace) returns (raised: Option<Exc>)
    modifies trace
    ensures raised == var k := FirstFailure(faults); if k < |faults| then faults[k] else None
    ensures trace.log == old(trace.log) + InitializerEvents(Started(faults))
  {
    for i := 0 to |faults|
      invariant forall j :: 0 <= j < i ==> faults[j].None?
      invariant trace.log == old(trace.log) + InitializerEvents(i)
    {
      trace.log := trace.log + [Initialized(i)];
      assert InitializerEvents(i + 1) == InitializerEvents(i) + [Initialized(i)];
      if faults[i].Some? {
        StopsAt(faults, i);
        return faults[i];
      }
    }
    StopsAt(faults, |faults|);
    raised := None;
  }

  // ------------------------------------------------------------------
  // Which error the caller sees
  // ------------------------------------------------------------------

  datatype Phase = Loading | Requesting | Resolving | Checking | Building | Entering | Initializing | Planning
    | Leaving | Persisting

  predicate Passes(phase: Phase, kind: Kind) {
    match phase
    case Loading | Resolving | Building | Leaving => true
    case Requesting => kind.Control? || kind.Bare?
    case Checking | Entering | Persisting => !kind.Ordinary?
    case Initializing | Planning => kind.Project? || kind.Control?
  }

  function LabelOf(phase: Phase): string {
    match phase
    case Requesting | Initializing => "UsageError"
    case Checking => "SecurityRefusal"
    case Persisting => "OpsPersistenceFailure"
    case _ => "BrowserRuntimeError"
  }

  function TextOf(phase: Phase, name: string): string {
    match phase
    case Requesting => "invalid --timeout-ms value"
    case Checking => "session runtime config is not safe to run: " + name
    case Entering => "browser run could not start: " + name
    case Initializing => "context initializer failed: " + name
    case Persisting => "run metadata persistence failed: " + name
    case _ => "run navigation/capture failed: " + name
  }

  function Classified(phase: Phase, e: Exc): Exc {
    if Passes(phase, e.kind) then e else Exc(Project, LabelOf(phase), TextOf(phase, e.name))
  }

  function UnsafeOutput(): Exc { Exc(Project, "BrowserRuntimeError", "plan produced non-JSON-safe output metadata") }

  // ------------------------------------------------------------------
  // What a plan contributes to the output
  // ------------------------------------------------------------------

  /** `_sanitize_extra_value`: the texts of a value, not its keys, go through `sanitize`. */
  function Sanitized(v: Python, sanitize: string -> string): Python {
    match v
    case Text(s) => Text(sanitize(s))
    case List(items) => List(seq(|items|, i requires 0 <= i < |items| => Sanitized(items[i], sanitize)))
    case Dict(entries) =>
      Dict(seq(|entries|, i requires 0 <= i < |entries| => (entries[i].0, Sanitized(entries[i].1, sanitize))))
    case _ => v
  }

  /** The sanitised fields; of two entries of one name the later counts. */
  function SafeExtra(extra: seq<(Python, Python)>, sanitize: string -> string): map<string, Python> {
    if extra == [] || !extra[|extra| - 1].0.Text? then map[]
    else
      var (key, value) := extra[|extra| - 1];
      SafeExtra(extra[..|extra| - 1], sanitize)[key.s := Sanitized(value, sanitize)]
  }

  /** `_safe_extra`; None when the output is not JSON safe. */
  method CheckedExtra(extra: seq<(Python, Python)>, sanitize: string -> string)
    returns (safe: Option<map<string, Python>>)
    ensures safe == if JsonSafe(Dict(extra)) then Some(SafeExtra(extra, sanitize)) else None
  {
    if !JsonSafe(Dict(extra)) { return None; }
    var fields: map<string, Python> := map[];
    for i := 0 to |extra|
      invariant fields == SafeExtra(extra[..i], sanitize)
    {
      assert extra[..i + 1][..i] == extra[..i];
      fields := fields[extra[i].0.s := Sanitized(extra[i].1, sanitize)];
    }
    assert extra[..|extra|] == extra;
    safe := Some(fields);
  }

  /** The value at the end of a path of positions. */
  function Below(v: Python, path: seq<nat>): Option<Python>
    decreases |path|
  {
    if path == [] then Some(v)
    else if v.List? && path[0] < |v.items| then Below(v.items[path[0]], path[1..])
    else if v.Dict? && path[0] < |v.entries| then Below(v.entries[path[0]].1, path[1..])
    else None
  }

  /** `w` stands where `v` stood: a text has gone through `sanitize`, a list has its length,
      a dictionary its keys in order, anything else is as it was. */
  predicate StandsFor(v: Option<Python>, w: Option<Python>, sanitize: string -> string) {
    match v
    case Some(Text(s)) => w == Some(Text(sanitize(s)))
    case Some(List(items)) => w.Some? && w.value.List? && |w.value.items| == |items|
    case Some(Dict(entries)) =>
      && w.Some? && w.value.Dict? && |w.value.entries| == |entries|
      && forall i :: 0 <= i < |entries| ==> w.value.entries[i].0 == entries[i].0
    case _ => w == v
  }

  /** At every path, however deep. */
  lemma {:induction false} SanitizedEverywhere(v: Python, sanitize: string -> string, path: seq<nat>)
    ensures StandsFor(Below(v, path), Below(Sanitized(v, sanitize), path), sanitize)
    decreases |path|
  {
    if path != [] {
      if v.List? && path[0] < |v.items| { SanitizedEverywhere(v.items[path[0]], sanitize, path[1..]); }
      if v.Dict? && path[0] < |v.entries| { SanitizedEverywhere(v.entries[path[0]].1, sanitize, path[1..]); }
    }
  }

  lemma {:induction false} ExtraKeys(extra: seq<(Python, Python)>, sanitize: string -> string, key: string)
    requires forall i :: 0 <= i < |extra| ==> extra[i].0.Text?
    ensures key in SafeExtra(extra, sanitize) <==> exists i :: 0 <= i < |extra| && extra[i].0 == Text(key)
  {
    hide Sanitized;
    if extra != [] {
      var n := |extra| - 1;
      ExtraKeys(extra[..n], sanitize, key);
      if i :| 0 <= i < |extra| && extra[i].0 == Text(key) {
        assert i < n ==> extra[..n][i].0 == Text(key);
      }
    }
  }

  /** The entry of that name that counts. */
  ghost predicate CountsFor(extra: seq<(Python, Python)>, i: int, key: string) {
    0 <= i < |extra| && extra[i].0 == Text(key) && forall j :: i < j < |extra| ==> extra[j].0 != Text(key)
  }

  lemma {:induction false} ExtraValues(extra: seq<(Python, Python)>, sanitize: string -> string, key: string, i: nat)
    requires forall i :: 0 <= i < |extra| ==> extra[i].0.Text?
    requires CountsFor(extra, i, key)
    ensures key in SafeExtra(extra, sanitize) && SafeExtra(extra, sanitize)[key] == Sanitized(extra[i].1, sanitize)
  {
    hide Sanitized;
    var n := |extra| - 1;
    if i < n { ExtraValues(extra[..n], sanitize, key, i); }
  }

  /** What the caller receives under a name: the plan's last value of that name with every
      text in it sanitised, at any depth, and everything else in it as it was; else the field
      the executor reports itself. */
  lemma OutputIsSafe(
    own: map<string, Python>, extra: seq<(Python, Python)>, sanitize: string -> string, key: string, i: nat, path: seq<nat>)
    requires forall i :: 0 <= i < |extra| ==> extra[i].0.Text?
    ensures var data := own + SafeExtra(extra, sanitize);
            && (CountsFor(extra, i, key) ==>
                  key in data && StandsFor(Below(extra[i].1, path), Below(data[key], path), sanitize))
            && ((forall i :: 0 <= i < |extra| ==> extra[i].0 != Text(key)) ==>
                  (key in data <==> key in own) && (key in own ==> data[key] == own[key]))
  {
    ExtraKeys(extra, sanitize, key);
    if CountsFor(extra, i, key) {
      ExtraValues(extra, sanitize, key, i);
      SanitizedEverywhere(extra[i].1, sanitize, path);
    }
    hide SafeExtra, StandsFor, Below, Sanitized;
  }

  // ------------------------------------------------------------------
  // The executor
  // ------------------------------------------------------------------

  /** What the calls before the context is entered raise: loading the session and profile,
      building the request, resolving the configuration, checking it, building the engine. */
  datatype BeforeFaults = BeforeFaults(
    loading: Option<Exc>, requesting: Option<Exc>, resolving: Option<Exc>, checking: Option<Exc>,
    building: Option<Exc>)

  datatype Faults = Faults(
    before: BeforeFaults, enter: EnterFaults, cleanup: CleanupFaults,
    target: Option<Exc>,             // building the diagnostic target and the surface
    scope: Option<Exc>, initializers: seq<Option<Exc>>, plan: Plan,
    exit: ExitFaults, persist: Option<Exc>)

  /** The error of the first call that raises before the context is entered. */
  function BeforeError(b: BeforeFaults): Option<Exc> {
    if b.loading.Some? then Some(Classified(Loading, b.loading.value))
    else if b.requesting.Some? then Some(Classified(Requesting, b.requesting.value))
    else if b.resolving.Some? then Some(Classified(Resolving, b.resolving.value))
    else if b.checking.Some? then Some(Classified(Checking, b.checking.value))
    else if b.building.Some? then Some(Classified(Building, b.building.value))
    else None
  }

  /** What the initializers and the plan raise together, and in which phase. */
  function WorkError(f: Faults): Option<(Phase, Exc)> {
    var k := FirstFailure(f.initializers);
    if f.initializers != [] && f.scope.Some? then Some((Initializing, f.scope.value))
    else if k < |f.initializers| then Some((Initializing, f.initializers[k].value))
    else if f.plan.end.Raises? then Some((Planning, f.plan.end.error))
    else None
  }

  predicate PlanRuns(f: Faults) {
    f.initializers == [] || (f.scope.None? && FirstFailure(f.initializers) == |f.initializers|)
  }

  /** The plan is run and navigates. */
  predicate Loads(f: Faults) {
    AllInitialized(f) && f.plan.navigations != []
  }

  /** The initializers awaited and the plan, as far as they get. */
  function WorkEvents(f: Faults): seq<Event> {
    InitializerEvents(if f.initializers == [] || f.scope.Some? then 0 else Started(f.initializers))
    + (if PlanRuns(f) then [Planned] else [])
  }

  function CallerError(f: Faults): Option<Exc> {
    var work := WorkError(f);
    if work.Some? then Some(work.value.1) else None
  }

  /** What the caller of an entered run sees. */
  function RunError(job: Job, f: Faults): Option<Exc> {
    var work := WorkError(f);
    var left := ExitRaises(job, CallerError(f), f.exit);
    if left.Some? then left
    else if work.Some? then Some(Classified(work.value.0, work.value.1))
    else if !JsonSafe(Dict(f.plan.end.result.extra)) then Some(UnsafeOutput())
    else if f.persist.Some? then Some(Classified(Persisting, f.persist.value))
    else None
  }

  /** The metadata transaction is opened. */
  predicate Transacts(job: Job, f: Faults) {
    && WorkError(f).None? && ExitRaises(job, None, f.exit).None? && JsonSafe(Dict(f.plan.end.result.extra))
  }

  /** Everything the executor leaves in the log, `free` saying whether nobody holds the
      profile's lock. */
  function ExecutorLog(job: Job, free: bool, f: Faults): seq<Event> {
    var k := FirstFailure(EnterSteps(job.session.config, free, f.enter));
    if BeforeError(f.before).Some? || !Acceptable(job) then []
    else if k < 8 then Opening(k) + CleaningUp(k)
    else if f.target.Some? then Opening(8)
    else
      Opening(8) + WorkEvents(f) + ExitEvents(job.session.config)
      + (if Transacts(job, f) then [Transaction] else [])
  }

  method Work(f: Faults, surface: RunSurface, trace: Trace) returns (error: Option<(Phase, Exc)>)
    requires surface.gotoCount == 0
    modifies surface, trace
    ensures error == WorkError(f) && (error.None? ==> f.plan.end.Returns?)
    ensures trace.log == old(trace.log) + WorkEvents(f)
    ensures surface.loaded == old(surface.loaded) + (if Loads(f) then 1 else 0)
  {
    if f.initializers != [] {
      if f.scope.Some? { return Some((Initializing, f.scope.value)); }
      FirstFailureIsLast(f.initializers);
      var raised := InitializeAll(f.initializers, trace);
      if raised.Some? { return Some((Initializing, raised.value)); }
    }
    FirstFailureIsLast(f.initializers);
    var refused := RunPlan(f.plan, surface, trace);
    error := if f.plan.end.Raises? then Some((Planning, f.plan.end.error)) else None;
  }

  /** The part of a run after a successful enter. */
  method RunEntered(managed: ManagedSessionContext, surface: RunSurface, sanitize: string -> string, f: Faults)
    returns (raised: Option<Exc>, extra: Option<map<string, Python>>)
    requires managed.Entered() && surface.gotoCount == 0
    modifies managed, managed.table, managed.trace, managed.lock, surface
    ensures surface.loaded == old(surface.loaded) + (if Loads(f) then 1 else 0)
    ensures managed.lock == null && raised == RunError(managed.job, f)
    ensures managed.trace.log == old(managed.trace.log) + WorkEvents(f) + ExitEvents(managed.job.session.config)
              + (if Transacts(managed.job, f) then [Transaction] else [])
    ensures managed.runRecord == Some(ExitRecord(managed.job, old(managed.initialRef), CallerError(f), f.exit))
    ensures managed.initialRef == old(managed.initialRef)
    ensures raised.None? ==> f.plan.end.Returns?
    ensures extra == if raised.None? then Some(SafeExtra(f.plan.end.result.extra, sanitize)) else None
  {
    hide FirstFailure, EnterSteps, ExitRecord, ExitRaises, ExitResult, WorkError, WorkEvents, JsonSafe;
    hide ExitEvents, FinalRef;
    extra := None;
    var work := Work(f, surface, managed.trace);
    var left := managed.Exit(if work.Some? then Some(work.value.1) else None, f.exit);
    if left.Some? { return left, None; }
    if work.Some? { return Some(Classified(work.value.0, work.value.1)), None; }
    var safe := CheckedExtra(f.plan.end.result.extra, sanitize);
    if safe.None? { return Some(UnsafeOutput()), None; }
    managed.trace.log := managed.trace.log + [Transaction];
    if f.persist.Some? { return Some(Classified(Persisting, f.persist.value)), None; }
    raised, extra := None, safe;
  }

  /** Nothing is entered unless everything before it succeeded; an entered context is exited
      exactly once, except that building the diagnostic target and the surface happens outside
      the guarded part: if that raises, the context stays open.  What is raised depends on the
      failing phase as stated; what is returned is what the executor reports itself (`own`)
      updated with the sanitised output of the plan. */
  method ExecuteManagedRun(
    managed: ManagedSessionContext, surface: RunSurface, written: ArtifactRef, own: map<string, Python>,
    sanitize: string -> string, f: Faults)
    returns (raised: Option<Exc>, data: map<string, Python>)
    requires managed.Unused() && surface.gotoCount == 0
    modifies managed, managed.table, managed.trace, surface
    ensures var reached := BeforeError(f.before).None? && f.target.None? && Acceptable(managed.job)
              && FirstFailure(EnterSteps(managed.job.session.config, managed.job.profile !in old(managed.table.held), f.enter)) == 8;
            surface.loaded == old(surface.loaded) + (if reached && Loads(f) then 1 else 0)
    ensures managed.trace.log == old(managed.trace.log)
              + ExecutorLog(managed.job, managed.job.profile !in old(managed.table.held), f)
    ensures BeforeError(f.before).Some? ==>
              && raised == BeforeError(f.before) && managed.Unused() && managed.table.held == old(managed.table.held)
    ensures var steps := EnterSteps(managed.job.session.config, managed.job.profile !in old(managed.table.held), f.enter);
            var k := FirstFailure(steps);
            BeforeError(f.before).None? ==>
              if !Acceptable(managed.job) then
                raised == Some(Exc(Project, "BrowserRuntimeError", "browser run could not start: " + "ValueError"))
              else if k < 8 then
                && managed.lock == null
                && raised == (if !steps[k].value.kind.Ordinary? then steps[k]
                              else Some(Exc(Project, "BrowserRuntimeError", "browser run could not start: " + steps[k].value.name)))
              else if f.target.Some? then raised == f.target && managed.Entered()
              else
                && raised == RunError(managed.job, f) && managed.lock == null
                && managed.runRecord == Some(ExitRecord(managed.job, managed.initialRef, CallerError(f), f.exit))
    ensures raised.None? ==>
              f.plan.end.Returns? && data == own + SafeExtra(f.plan.end.result.extra, sanitize)
  {
    hide FirstFailure, EnterSteps, ExitRecord, ExitRaises, ExitResult, WorkError, WorkEvents, JsonSafe;
    hide Opening, CleaningUp, ExitEvents, FinalRef, SafeExtra, RunError;
    data := map[];
    raised := BeforeError(f.before);
    if raised.Some? { return; }
    var failure := managed.Enter(written, f.enter, f.cleanup);
    if failure.Some? { return Some(Classified(Entering, failure.value)), map[]; }
    if f.target.Some? { return f.target, map[]; }
    var error, extra := RunEntered(managed, surface, sanitize, f);
    raised := error;
    if extra.Some? { data := own + extra.value; }
  }

  // ------------------------------------------------------------------
  // What the executor promises, for every fault pattern
  // ------------------------------------------------------------------

  lemma {:induction false} FirstFailureIsLast(faults: seq<Option<Exc>>)
    ensures FirstFailure(faults) == |faults| <==> forall i :: 0 <= i < |faults| ==> faults[i].None?
  {
    var k := FirstFailure(faults);
    if forall i :: 0 <= i < |faults| ==> faults[i].None? { StopsAt(faults, |faults|); }
  }

  predicate AllInitialized(f: Faults) {
    (f.initializers != [] ==> f.scope.None?) && forall i :: 0 <= i < |f.initializers| ==> f.initializers[i].None?
  }

  /** The initializers awaited are a prefix in order, all but the last of them succeeded, and
      the plan runs exactly when all of them did. */
  lemma WorkIsOrdered(f: Faults) returns (n: nat)
    ensures n <= |f.initializers|
    ensures forall i :: 0 <= i < n - 1 ==> f.initializers[i].None?
    ensures Planned in WorkEvents(f) <==> AllInitialized(f)
    ensures WorkEvents(f) == InitializerEvents(n) + (if AllInitialized(f) then [Planned] else [])
    ensures AllInitialized(f) ==> n == |f.initializers|
  {
    FirstFailureIsLast(f.initializers);
    n := if f.initializers == [] || f.scope.Some? then 0 else Started(f.initializers);
    hide InitializerEvents;
    assert Planned !in InitializerEvents(n);
  }

  /** The metadata transaction is opened exactly when every initializer and the plan
      succeeded, every step of the exit did, and the plan's output is JSON safe. */
  lemma TransactionExactly(job: Job, f: Faults)
    ensures Transacts(job, f) <==>
              && AllInitialized(f) && f.plan.end.Returns? && JsonSafe(Dict(f.plan.end.result.extra))
              && CleanExit(job.session.config, f.exit) && f.exit.result.None?
  {
    FirstFailureIsLast(f.initializers);
    CleanExitExactly(job.session.config, f.exit);
    hide ExitSteps, Raised, JsonSafe, FirstFailure, CleanExit;
  }

  /** The caller sees no error exactly when the run is recorded as succeeded, its output is
      safe and its metadata was committed; a run recorded as failed always raises. */
  lemma NoErrorExactly(job: Job, initial: Option<ArtifactRef>, f: Faults)
    ensures var record := ExitRecord(job, initial, CallerError(f), f.exit);
            && (RunError(job, f).None? <==> Transacts(job, f) && f.persist.None?)
            && (Transacts(job, f) ==> record.status.Succeeded?)
            && (record.status.Failed? ==> RunError(job, f).Some?)
            && (record.status.Succeeded? && f.exit.result.None? ==>
                  (RunError(job, f).Some? <==> !JsonSafe(Dict(f.plan.end.result.extra)) || f.persist.Some?))
  {
    SucceededExactly(job, initial, CallerError(f), f.exit);
    CleanExitExactly(job.session.config, f.exit);
    hide ExitSteps, Raised, JsonSafe, FirstFailure, Messages, Classified, ExitRecord, CleanExit;
  }

  /** After a plan that succeeded, the first failure of the exit is raised as it is. */
  lemma CleanupFailureIsRaw(job: Job, f: Faults, k: nat)
    requires WorkError(f).None? && f.exit.result.None?
    requires k < 4 && ExitSteps(job.session.config, f.exit)[k].Some?
    requires forall i :: 0 <= i < k ==> ExitSteps(job.session.config, f.exit)[i].None?
    ensures RunError(job, f) == ExitSteps(job.session.config, f.exit)[k]
  {
    RaisedOfFour(ExitSteps(job.session.config, f.exit));
    hide ExitSteps, Raised, JsonSafe, FirstFailure;
    FirstOf(ExitSteps(job.session.config, f.exit));
  }

  /** What becomes of an exception: unchanged if it passes, else an error of this class that
      keeps nothing of it but its class name. */
  predicate Becomes(raised: Option<Exc>, e: Exc, passes: bool, name: string, text: string) {
    raised == Some(if passes then e else Exc(Project, name, text))
  }

  /** The class of every error before the context is entered.  Loading, resolving and building
      the engine pass it on; building the request turns project errors too into usage errors;
      the configuration check passes all but ordinary ones. */
  lemma BeforeErrorClass(b: BeforeFaults)
    ensures
      if b.loading.Some? then BeforeError(b) == b.loading
      else if b.requesting.Some? then
        var e := b.requesting.value;
        Becomes(BeforeError(b), e, e.kind.Control? || e.kind.Bare?, "UsageError", "invalid --timeout-ms value")
      else if b.resolving.Some? then BeforeError(b) == b.resolving
      else if b.checking.Some? then
        var e := b.checking.value;
        Becomes(BeforeError(b), e, !e.kind.Ordinary?, "SecurityRefusal", "session runtime config is not safe to run: " + e.name)
      else if b.building.Some? then BeforeError(b) == b.building
      else BeforeError(b).None?
  {
  }

  /** The exception of the scope or of the first initializer that raises. */
  ghost predicate InitializerRaised(f: Faults, e: Exc) {
    && f.initializers != []
    && (f.scope == Some(e) || (f.scope.None? && exists k :: RaisedFirst(f.initializers, k, e)))
  }

  ghost predicate RaisedFirst(faults: seq<Option<Exc>>, k: int, e: Exc) {
    0 <= k < |faults| && faults[k] == Some(e) && forall i :: 0 <= i < k ==> faults[i].None?
  }

  /** The class of every error after it, first to last: an unsafe run directory, then an
      initializer's or the plan's exception whatever the exit does, then the exit's first
      failure as it is, then the output check, then the transaction. */
  lemma RunErrorClass(job: Job, f: Faults, e: Exc)
    ensures f.exit.result.Some? ==> RunError(job, f) == f.exit.result
    ensures f.exit.result.None? && InitializerRaised(f, e) ==>
              Becomes(RunError(job, f), e, e.kind.Control? || e.kind.Project?, "UsageError",
                      "context initializer failed: " + e.name)
    ensures f.exit.result.None? && AllInitialized(f) && f.plan.end == Raises(e) ==>
              Becomes(RunError(job, f), e, e.kind.Control? || e.kind.Project?, "BrowserRuntimeError",
                      "run navigation/capture failed: " + e.name)
    ensures f.exit.result.None? && AllInitialized(f) && f.plan.end.Returns? && CleanExit(job.session.config, f.exit) ==>
              if !JsonSafe(Dict(f.plan.end.result.extra)) then
                RunError(job, f)
                  == Some(Exc(Project, "BrowserRuntimeError", "plan produced non-JSON-safe output metadata"))
              else if f.persist == Some(e) then
                Becomes(RunError(job, f), e, !e.kind.Ordinary?, "OpsPersistenceFailure",
                        "run metadata persistence failed: " + e.name)
              else f.persist.None? ==> RunError(job, f).None?
  {
    FirstFailureIsLast(f.initializers);
    CleanExitExactly(job.session.config, f.exit);
    hide ExitSteps, Raised, JsonSafe, FirstFailure, CleanExit;
    if InitializerRaised(f, e) && f.scope.None? {
      var k :| RaisedFirst(f.initializers, k, e);
      StopsAt(f.initializers, k);
    }
  }

  // ------------------------------------------------------------------
  // JSON-safe output
  // ------------------------------------------------------------------

  datatype Document = JScalar | JText(s: string) | JList(items: seq<Document>) | JDict(entries: seq<(string, Document)>)

  function ToPython(j: Document): Python {
    match j
    case JScalar => Scalar
    case JText(s) => Text(s)
    case JList(items) => List(seq(|items|, i requires 0 <= i < |items| => ToPython(items[i])))
    case JDict(entries) =>
      Dict(seq(|entries|, i requires 0 <= i < |entries| => (Text(entries[i].0), ToPython(entries[i].1))))
  }

  function ToJson(v: Python): Document
    requires JsonSafe(v)
  {
    match v
    case Scalar => JScalar
    case Text(s) => JText(s)
    case List(items) => JList(seq(|items|, i requires 0 <= i < |items| => ToJson(items[i])))
    case Dict(entries) =>
      JDict(seq(|entries|, i requires 0 <= i < |entries| => (entries[i].0.s, ToJson(entries[i].1))))
  }

  lemma {:induction false} SafeIsJson(v: Python)
    requires JsonSafe(v)
    ensures ToPython(ToJson(v)) == v
  {
    match v
    case List(items) =>
      forall i | 0 <= i < |items| ensures ToPython(ToJson(items[i])) == items[i] { SafeIsJson(items[i]); }
      assert ToPython(ToJson(v)).items == items;
    case Dict(entries) =>
      forall i | 0 <= i < |entries| ensures ToPython(ToJson(entries[i].1)) == entries[i].1 { SafeIsJson(entries[i].1); }
      assert ToPython(ToJson(v)).entries == entries;
    case _ =>
  }

  lemma {:induction false} JsonIsSafe(j: Document)
    ensures JsonSafe(ToPython(j)) && ToJson(ToPython(j)) == j
  {
    match j
    case JList(items) =>
      forall i | 0 <= i < |items| ensures JsonSafe(ToPython(items[i])) && ToJson(ToPython(items[i])) == items[i] {
        JsonIsSafe(items[i]);
      }
      assert ToJson(ToPython(j)).items == items;
    case JDict(entries) =>
      forall i | 0 <= i < |entries|
        ensures JsonSafe(ToPython(entries[i].1)) && ToJson(ToPython(entries[i].1)) == entries[i].1
      {
        JsonIsSafe(entries[i].1);
      }
      assert ToJson(ToPython(j)).entries == entries;
    case _ =>
  }

  /** The check accepts exactly the values that some JSON document denotes. */
  lemma SafeExactlyJson(v: Python)
    ensures JsonSafe(v) <==> exists j :: ToPython(j) == v
  {
    if JsonSafe(v) { SafeIsJson(v); }
    if j :| ToPython(j) == v { JsonIsSafe(j); }
  }
}
