/** The interleaved step system and the step-by-step executor describe the same run: every
    log the executor can leave is the history of a run the step system can reach, and both
    reach the same verdict. */
module RunAgreement {
  import opened Text
  import opened RunEvents
  import RunSystem
  import Sim = RunSimulation
  import ManagedContext
  import Executor

  // ------------------------------------------------------------------
  // What the inputs make of a run on its own
  // ------------------------------------------------------------------

  function In(fails: bool): RunSystem.Input {
    RunSystem.Input(fails, false, false, false, RunSystem.BrowserState("", []))
  }

  function Repeat(n: nat): seq<RunSystem.Input> { seq(n, _ => In(false)) }

  function StageAt(k: nat): RunSystem.Stage {
    if k == 0 then RunSystem.AtLock else if k == 1 then RunSystem.AtLayout else if k == 2 then RunSystem.AtPrior
    else if k == 3 then RunSystem.AtInitial else if k == 4 then RunSystem.AtLaunch else if k == 5 then RunSystem.AtContext
    else if k == 6 then RunSystem.AtRecords else RunSystem.AtInitializers
  }

  function HeldFrom(k: nat, n: nat): RunSystem.Resource { if k >= n then RunSystem.Live else RunSystem.Absent }

  /** The shape after `k` entering steps that succeeded. */
  function EnteredShape(k: nat): Sim.Shape {
    Sim.Start().(stage := StageAt(k), lock := HeldFrom(k, 1), runtime := HeldFrom(k, 5), context := HeldFrom(k, 6),
                 started := k >= 3, entered := k >= 7)
  }

  lemma OneMoreEntered(p: Sim.Plan, k: nat)
    requires k < 7
    ensures Sim.NextShape(p, EnteredShape(k), In(false)) == EnteredShape(k + 1)
  {
    if k == 0 { } else if k == 1 { } else if k == 2 { } else if k == 3 { } else if k == 4 { } else if k == 5 { } else { }
  }

  lemma {:induction false} EntersSmoothly(p: Sim.Plan, k: nat)
    requires k <= 7
    ensures Sim.Play(p, Sim.Start(), Repeat(k)) == EnteredShape(k)
  {
    if k > 0 {
      EntersSmoothly(p, k - 1);
      OneMoreEntered(p, k - 1);
      assert Repeat(k)[..k - 1] == Repeat(k - 1);
      hide EnteredShape, Sim.NextShape;
    }
  }

  lemma StopsEntering(p: Sim.Plan, k: nat)
    requires k < 7 && (k == 3 ==> p.initial)
    ensures Sim.NextShape(p, EnteredShape(k), In(true)) == EnteredShape(k).(stage := RunSystem.AtCloseContext)
  {
    if k == 0 { } else if k == 1 { } else if k == 2 { } else if k == 3 { } else if k == 4 { } else if k == 5 { } else { }
  }

  function Ended(r: RunSystem.Resource): RunSystem.Resource {
    if r.Absent? then RunSystem.Absent else RunSystem.Ended
  }

  lemma ShapeClosesContext(p: Sim.Plan, s: Sim.Shape, x: RunSystem.Input)
    requires s.stage.AtCloseContext?
    ensures Sim.NextShape(p, s, x)
         == s.(stage := RunSystem.AtCloseRuntime, context := Ended(s.context),
               cleanupFailed := s.cleanupFailed || (x.fails && s.entered && !s.context.Absent?))
  {
  }

  lemma ShapeClosesRuntime(p: Sim.Plan, s: Sim.Shape, x: RunSystem.Input)
    requires s.stage.AtCloseRuntime?
    ensures Sim.NextShape(p, s, x)
         == s.(stage := RunSystem.AtRelease, runtime := Ended(s.runtime),
               cleanupFailed := s.cleanupFailed || (x.fails && s.entered && !s.runtime.Absent?))
  {
  }

  /** What a release leaves, given whether the exit failed. */
  function ReleasedShape(s: Sim.Shape, failed: bool): Sim.Shape {
    s.(stage := if s.entered && !s.failed && !failed then RunSystem.AtPersist else RunSystem.Done,
       lock := Ended(s.lock), cleanupFailed := failed)
  }

  lemma ShapeReleasesNothing(p: Sim.Plan, s: Sim.Shape, x: RunSystem.Input)
    requires s.stage.AtRelease? && s.lock.Absent?
    ensures Sim.NextShape(p, s, x) == ReleasedShape(s, s.cleanupFailed)
  {
  }

  lemma ShapeReleasesLock(p: Sim.Plan, s: Sim.Shape, x: RunSystem.Input)
    requires s.stage.AtRelease? && !s.lock.Absent?
    ensures Sim.NextShape(p, s, x) == ReleasedShape(s, s.cleanupFailed || (x.fails && s.entered))
  {
  }

  lemma ShapeReleases(p: Sim.Plan, s: Sim.Shape, x: RunSystem.Input)
    requires s.stage.AtRelease?
    ensures Sim.NextShape(p, s, x) == ReleasedShape(s, s.cleanupFailed || (x.fails && s.entered && !s.lock.Absent?))
  {
    hide *;
    if s.lock.Absent? { ShapeReleasesNothing(p, s, x); } else { ShapeReleasesLock(p, s, x); }
  }

  lemma PlayThree(p: Sim.Plan, s: Sim.Shape, x: RunSystem.Input, y: RunSystem.Input, z: RunSystem.Input)
    ensures Sim.Play(p, s, [x, y, z]) == Sim.NextShape(p, Sim.NextShape(p, Sim.NextShape(p, s, x), y), z)
  {
    hide *;
    var a := Sim.NextShape(p, s, x);
    Sim.PlayOne(p, s, x);
    Sim.PlayOne(p, a, y);
    Sim.PlayOne(p, Sim.NextShape(p, a, y), z);
    Sim.PlayAppend(p, s, [x], [y]);
    Sim.PlayAppend(p, s, [x] + [y], [z]);
    assert [x] + [y] + [z] == [x, y, z];
  }

  lemma LeavesUnentered(p: Sim.Plan, s: Sim.Shape)
    requires s.stage.AtCloseContext? && !s.entered
    ensures Sim.Play(p, s, [In(false), In(false), In(false)])
         == s.(stage := RunSystem.Done, context := Ended(s.context), runtime := Ended(s.runtime), lock := Ended(s.lock))
  {
    hide Sim.NextShape, Sim.Play, Ended;
    PlayThree(p, s, In(false), In(false), In(false));
    ShapeClosesContext(p, s, In(false));
    var a := Sim.NextShape(p, s, In(false));
    ShapeClosesRuntime(p, a, In(false));
    ShapeReleases(p, Sim.NextShape(p, a, In(false)), In(false));
  }

  /** The inputs of a run whose `k`-th entering step fails. */
  function FailedInputs(k: nat): seq<RunSystem.Input> {
    Repeat(k) + ([In(true)] + [In(false), In(false), In(false)])
  }

  lemma PlaysFailed(p: Sim.Plan, k: nat)
    requires k < 7 && (k == 3 ==> p.initial)
    ensures var s := EnteredShape(k);
            Sim.Play(p, Sim.Start(), FailedInputs(k))
              == s.(stage := RunSystem.Done, context := Ended(s.context), runtime := Ended(s.runtime), lock := Ended(s.lock))
  {
    assert !EnteredShape(k).entered;
    hide EnteredShape, Sim.Play, Sim.NextShape, Ended, Sim.Start;
    var closing := EnteredShape(k).(stage := RunSystem.AtCloseContext);
    EntersSmoothly(p, k);
    Sim.PlayAppend(p, Sim.Start(), Repeat(k), [In(true)] + [In(false), In(false), In(false)]);
    Sim.PlayAppend(p, EnteredShape(k), [In(true)], [In(false), In(false), In(false)]);
    Sim.PlayOne(p, EnteredShape(k), In(true));
    StopsEntering(p, k);
    LeavesUnentered(p, closing);
  }

  // ------------------------------------------------------------------
  // Initializers and plan
  // ------------------------------------------------------------------

  function Awaited(f: Executor.Faults): nat {
    if f.initializers == [] || f.scope.Some? then 0 else Executor.Started(f.initializers)
  }

  function WorkInputs(f: Executor.Faults): seq<RunSystem.Input> {
    var k := ManagedContext.FirstFailure(f.initializers);
    if f.initializers != [] && f.scope.Some? then [In(false).(scope := true)]
    else if k < |f.initializers| then Repeat(k) + [In(true)]
    else Repeat(k) + [In(false), In(f.plan.end.Raises?)]
  }

  lemma {:induction false} RunsInitializers(p: Sim.Plan, s: Sim.Shape, k: nat)
    requires s.stage.AtInitializers? && s.ran == 0 && !s.failed && k <= p.initializers
    ensures Sim.Play(p, s, Repeat(k)) == s.(ran := k)
  {
    if k > 0 {
      RunsInitializers(p, s, k - 1);
      assert Repeat(k)[..k - 1] == Repeat(k - 1);
      hide Sim.NextShape;
      ShapeInitializes(p, s.(ran := k - 1), In(false));
    }
  }

  lemma ShapeInitializes(p: Sim.Plan, s: Sim.Shape, x: RunSystem.Input)
    requires s.stage.AtInitializers? && s.ran < p.initializers && !s.failed && !x.scope
    ensures Sim.NextShape(p, s, x)
         == s.(ran := s.ran + 1, failed := x.fails, stage := if x.fails then RunSystem.AtCapture else RunSystem.AtInitializers)
  {
  }

  lemma ShapePlans(p: Sim.Plan, s: Sim.Shape, x: RunSystem.Input)
    requires (s.stage.AtInitializers? && s.ran == p.initializers) || s.stage.AtPlan?
    ensures Sim.NextShape(p, s, x)
         == if s.stage.AtPlan? then s.(stage := RunSystem.AtCapture, planned := true, failed := x.fails)
            else s.(stage := RunSystem.AtPlan)
  {
  }

  /** How the work ends, in the executor's terms. */
  lemma WorkFacts(f: Executor.Faults)
    ensures var k, n := ManagedContext.FirstFailure(f.initializers), |f.initializers|;
            && (n > 0 && f.scope.Some? ==> Awaited(f) == 0 && !Executor.PlanRuns(f) && Executor.WorkError(f).Some?)
            && (!(n > 0 && f.scope.Some?) && k < n ==>
                  Awaited(f) == k + 1 && !Executor.PlanRuns(f) && Executor.WorkError(f).Some?)
            && (!(n > 0 && f.scope.Some?) && k == n ==>
                  Awaited(f) == n && Executor.PlanRuns(f) && (Executor.WorkError(f).Some? <==> f.plan.end.Raises?))
  {
  }

  lemma PlaysWork(p: Sim.Plan, s: Sim.Shape, f: Executor.Faults)
    requires s.stage.AtInitializers? && s.ran == 0 && !s.failed && !s.planned && p.initializers == |f.initializers|
    ensures Sim.Play(p, s, WorkInputs(f))
         == s.(stage := RunSystem.AtCapture, ran := Awaited(f), planned := Executor.PlanRuns(f),
               failed := Executor.WorkError(f).Some?)
  {
    WorkFacts(f);
    var k := ManagedContext.FirstFailure(f.initializers);
    hide Sim.Play, Sim.NextShape, ManagedContext.FirstFailure, Executor.WorkError, Executor.PlanRuns, Awaited;
    if f.initializers != [] && f.scope.Some? { ScopeFails(p, s); }
    else if k < |f.initializers| { InitializerFails(p, s, k); }
    else { PlanEnds(p, s, f.plan.end.Raises?); }
  }

  lemma ScopeFails(p: Sim.Plan, s: Sim.Shape)
    requires s.stage.AtInitializers? && s.ran == 0 != p.initializers
    ensures Sim.Play(p, s, [In(false).(scope := true)]) == s.(stage := RunSystem.AtCapture, failed := true)
  {
    Sim.PlayOne(p, s, In(false).(scope := true));
  }

  lemma InitializerFails(p: Sim.Plan, s: Sim.Shape, k: nat)
    requires s.stage.AtInitializers? && s.ran == 0 && !s.failed && k < p.initializers
    ensures Sim.Play(p, s, Repeat(k) + [In(true)]) == s.(stage := RunSystem.AtCapture, ran := k + 1, failed := true)
  {
    hide Sim.NextShape, Sim.Play;
    ShapeInitializes(p, s.(ran := k), In(true));
    RunsInitializers(p, s, k);
    Sim.PlayAppend(p, s, Repeat(k), [In(true)]);
    Sim.PlayOne(p, s.(ran := k), In(true));
  }

  lemma PlanEnds(p: Sim.Plan, s: Sim.Shape, fails: bool)
    requires s.stage.AtInitializers? && s.ran == 0 && !s.failed
    ensures Sim.Play(p, s, Repeat(p.initializers) + [In(false), In(fails)])
         == s.(stage := RunSystem.AtCapture, ran := p.initializers, planned := true, failed := fails)
  {
    var a := s.(ran := p.initializers);
    hide Sim.NextShape, Sim.Play;
    ShapePlans(p, a, In(false));
    ShapePlans(p, a.(stage := RunSystem.AtPlan), In(fails));
    RunsInitializers(p, s, p.initializers);
    Sim.PlayAppend(p, s, Repeat(p.initializers), [In(false), In(fails)]);
    assert [In(false), In(fails)] == [In(false)] + [In(fails)];
    Sim.PlayAppend(p, a, [In(false)], [In(fails)]);
    Sim.PlayOne(p, a, In(false));
    Sim.PlayOne(p, a.(stage := RunSystem.AtPlan), In(fails));
  }

  // ------------------------------------------------------------------
  // Leaving and recording
  // ------------------------------------------------------------------

  predicate ReadyToLeave(s: Sim.Shape) {
    && s.stage.AtCapture? && s.lock.Live? && s.runtime.Live? && s.context.Live?
    && s.entered && !s.tried && !s.cleanupFailed && !s.transacted && !s.committed
  }

  lemma ShapeCaptures(p: Sim.Plan, s: Sim.Shape, x: RunSystem.Input)
    requires ReadyToLeave(s)
    ensures Sim.NextShape(p, s, x)
         == s.(stage := RunSystem.AtCloseContext, tried := p.final, cleanupFailed := p.final && x.fails)
  {
  }

  lemma ShapeRecords(p: Sim.Plan, s: Sim.Shape, x: RunSystem.Input)
    requires (s.stage.AtPersist? || s.stage.Done?) && !s.transacted && !s.committed
    ensures var transacts := s.stage.AtPersist? && !x.unsafe;
            Sim.NextShape(p, s, x)
              == s.(stage := RunSystem.Done, transacted := transacts, committed := transacts && !x.fails)
  {
  }

  lemma PlaysLeaving(p: Sim.Plan, s: Sim.Shape, x: RunSystem.Input, c: RunSystem.Input, t: RunSystem.Input,
                     l: RunSystem.Input, m: RunSystem.Input)
    requires ReadyToLeave(s)
    ensures var failed := (p.final && x.fails) || c.fails || t.fails || l.fails;
            var transacts := !s.failed && !failed && !m.unsafe;
            Sim.Play(p, s, [x] + ([c, t, l] + [m]))
              == s.(stage := RunSystem.Done, tried := p.final, context := RunSystem.Ended, runtime := RunSystem.Ended,
                    lock := RunSystem.Ended, cleanupFailed := failed, transacted := transacts,
                    committed := transacts && !m.fails)
  {
    hide Sim.NextShape, Sim.Play;
    var s1 := Sim.NextShape(p, s, x);
    ShapeCaptures(p, s, x);
    Sim.PlayAppend(p, s, [x], [c, t, l] + [m]);
    Sim.PlayOne(p, s, x);
    Sim.PlayAppend(p, s1, [c, t, l], [m]);
    PlayThree(p, s1, c, t, l);
    ShapeClosesContext(p, s1, c);
    var s2 := Sim.NextShape(p, s1, c);
    ShapeClosesRuntime(p, s2, t);
    var s3 := Sim.NextShape(p, s2, t);
    ShapeReleases(p, s3, l);
    var s4 := Sim.NextShape(p, s3, l);
    Sim.PlayOne(p, s4, m);
    ShapeRecords(p, s4, m);
  }

  // ------------------------------------------------------------------
  // The same history
  // ------------------------------------------------------------------

  function SystemConfig(config: ManagedContext.Config): RunSystem.Config {
    RunSystem.Config(config.persist, config.captureInitial, config.captureFinal, "camoufox")
  }

  function Entered(job: ManagedContext.Job, free: bool, f: Executor.Faults): nat {
    ManagedContext.FirstFailure(ManagedContext.EnterSteps(job.session.config, free, f.enter))
  }

  function LeaveInputs(f: Executor.Faults): seq<RunSystem.Input> {
    var unsafe := f.exit.result.Some? || f.plan.end.Raises? || !Executor.JsonSafe(Executor.Dict(f.plan.end.result.extra));
    [In(f.exit.capture.NotWritten?)]
    + ([In(f.exit.context.Some?), In(f.exit.runtime.Some?), In(ManagedContext.Surfaced(f.exit.release.raised).Some?)]
       + [In(f.persist.Some?).(unsafe := unsafe)])
  }

  /** The step inputs that make a run of the step system do what the executor does: nothing,
      a failing enter, an entered run left behind, or a whole run. */
  function Inputs(job: ManagedContext.Job, free: bool, f: Executor.Faults): seq<RunSystem.Input> {
    var k := Entered(job, free, f);
    if Executor.BeforeError(f.before).Some? || !ManagedContext.Acceptable(job) then []
    else if k < 8 then FailedInputs(if k == 0 then 0 else k - 1)
    else if f.target.Some? then Repeat(7)
    else Repeat(7) + (WorkInputs(f) + LeaveInputs(f))
  }

  /** The caller of the executor sees no exception. */
  predicate ReturnsNormally(job: ManagedContext.Job, free: bool, f: Executor.Faults) {
    && Executor.BeforeError(f.before).None? && ManagedContext.Acceptable(job) && Entered(job, free, f) == 8
    && f.target.None? && Executor.RunError(job, f).None?
  }

  lemma UnstartedHistory(run: RunSystem.Run)
    requires Sim.ShapeOf(run) == Sim.Start()
    ensures RunSystem.Canonical(run) == [] && !run.committed
  {
    assert RunSystem.WithInitializers([], 0) == [];
  }

  lemma FailedHistory(run: RunSystem.Run, k: nat)
    requires k < 8
    requires var s := EnteredShape(if k == 0 then 0 else k - 1);
             Sim.ShapeOf(run) == s.(stage := RunSystem.Done, context := Ended(s.context), runtime := Ended(s.runtime),
                                    lock := Ended(s.lock))
    ensures RunSystem.Canonical(run) == ManagedContext.Opening(k) + ManagedContext.CleaningUp(k) && !run.committed
  {
    FailedFlags(run, k);
    hide Sim.ShapeOf, EnteredShape;
    assert RunSystem.WithInitializers(RunSystem.Opening(run), 0) == RunSystem.Opening(run);
  }

  lemma FailedFlags(run: RunSystem.Run, k: nat)
    requires k < 8
    requires var s := EnteredShape(if k == 0 then 0 else k - 1);
             Sim.ShapeOf(run) == s.(stage := RunSystem.Done, context := Ended(s.context), runtime := Ended(s.runtime),
                                    lock := Ended(s.lock))
    ensures run.lock == (if k > 1 then RunSystem.Ended else RunSystem.Absent)
    ensures run.runtime == (if k > 5 then RunSystem.Ended else RunSystem.Absent)
    ensures run.context == (if k > 6 then RunSystem.Ended else RunSystem.Absent)
    ensures run.ran == 0 && !run.planned && !run.tried && !run.transacted && !run.committed
  {
  }

  lemma LeftBehindHistory(run: RunSystem.Run)
    requires Sim.ShapeOf(run) == EnteredShape(7)
    ensures RunSystem.Canonical(run) == ManagedContext.Opening(8) && !run.committed
  {
    assert run.lock.Live? && run.runtime.Live? && run.context.Live? && run.ran == 0;
    assert !run.planned && !run.tried && !run.transacted && !run.committed;
    hide Sim.ShapeOf, EnteredShape;
    assert RunSystem.WithInitializers(RunSystem.Opening(run), 0) == RunSystem.Opening(run);
  }

  lemma {:induction false} InitializersAppended(log: seq<Event>, n: nat)
    ensures RunSystem.WithInitializers(log, n) == log + Executor.InitializerEvents(n)
  {
    if n > 0 {
      InitializersAppended(log, n - 1);
      assert Executor.InitializerEvents(n) == Executor.InitializerEvents(n - 1) + [Initialized(n - 1)];
    }
  }

  /** A run of the step system that is over and did what the executor's run did. */
  predicate Completed(run: RunSystem.Run, config: ManagedContext.Config, n: nat, planned: bool, transacted: bool) {
    && run.lock.Ended? && run.runtime.Ended? && run.context.Ended? && run.ran == n && run.planned == planned
    && run.tried == ManagedContext.WritesFinal(config) && run.transacted == transacted
  }

  lemma CompleteHistory(run: RunSystem.Run, config: ManagedContext.Config, n: nat, planned: bool, transacted: bool)
    requires Completed(run, config, n, planned, transacted)
    ensures RunSystem.Canonical(run)
              == ManagedContext.Opening(8) + (Executor.InitializerEvents(n) + (if planned then [Planned] else []))
                 + ManagedContext.ExitEvents(config) + (if transacted then [Transaction] else [])
  {
    var opening := RunSystem.Opening(run);
    InitializersAppended(opening, n);
    hide RunSystem.WithInitializers, Executor.InitializerEvents;
    assert opening == ManagedContext.Opening(8);
  }

  /** The shape of a whole run, and what it says in the executor's terms. */
  lemma PlaysWholeRun(p: Sim.Plan, job: ManagedContext.Job, f: Executor.Faults)
    requires p.initializers == |f.initializers| && p.final == ManagedContext.WritesFinal(job.session.config)
    ensures var s := Sim.Play(p, Sim.Start(), Repeat(7) + (WorkInputs(f) + LeaveInputs(f)));
            && s.lock.Ended? && s.runtime.Ended? && s.context.Ended? && s.ran == Awaited(f)
            && s.planned == Executor.PlanRuns(f) && s.tried == p.final
            && s.transacted == Executor.Transacts(job, f) && s.committed == (Executor.Transacts(job, f) && f.persist.None?)
  {
    var s := EnteredShape(7).(stage := RunSystem.AtCapture, ran := Awaited(f), planned := Executor.PlanRuns(f),
                              failed := Executor.WorkError(f).Some?);
    assert ReadyToLeave(s) && EnteredShape(7).stage.AtInitializers? && EnteredShape(7).ran == 0;
    assert !EnteredShape(7).failed && !EnteredShape(7).planned;
    TransactsAsTold(job, f);
    hide *;
    EntersSmoothly(p, 7);
    Sim.PlayAppend(p, Sim.Start(), Repeat(7), WorkInputs(f) + LeaveInputs(f));
    Sim.PlayAppend(p, EnteredShape(7), WorkInputs(f), LeaveInputs(f));
    PlaysWork(p, EnteredShape(7), f);
    PlaysLeaveInputs(p, s, f);
  }

  predicate ExitFailed(final: bool, f: ManagedContext.ExitFaults) {
    || (final && f.capture.NotWritten?) || f.context.Some? || f.runtime.Some?
    || ManagedContext.Surfaced(f.release.raised).Some?
  }

  predicate Unreturnable(f: Executor.Faults) {
    f.exit.result.Some? || f.plan.end.Raises? || !Executor.JsonSafe(Executor.Dict(f.plan.end.result.extra))
  }

  lemma PlaysLeaveInputs(p: Sim.Plan, s: Sim.Shape, f: Executor.Faults)
    requires ReadyToLeave(s)
    ensures var transacts := !s.failed && !ExitFailed(p.final, f.exit) && !Unreturnable(f);
            Sim.Play(p, s, LeaveInputs(f))
              == s.(stage := RunSystem.Done, tried := p.final, context := RunSystem.Ended, runtime := RunSystem.Ended,
                    lock := RunSystem.Ended, cleanupFailed := ExitFailed(p.final, f.exit), transacted := transacts,
                    committed := transacts && f.persist.None?)
  {
    hide Sim.Play, ReadyToLeave, Executor.JsonSafe, ManagedContext.Surfaced;
    PlaysLeaving(p, s, In(f.exit.capture.NotWritten?), In(f.exit.context.Some?), In(f.exit.runtime.Some?),
                 In(ManagedContext.Surfaced(f.exit.release.raised).Some?), In(f.persist.Some?).(unsafe := Unreturnable(f)));
  }

  lemma TransactsAsTold(job: ManagedContext.Job, f: Executor.Faults)
    ensures Executor.Transacts(job, f) <==>
              && Executor.WorkError(f).None? && !ExitFailed(ManagedContext.WritesFinal(job.session.config), f.exit)
              && !Unreturnable(f)
  {
    var steps := ManagedContext.ExitSteps(job.session.config, f.exit);
    ManagedContext.RaisedNothing(steps);
    assert ExitFailed(ManagedContext.WritesFinal(job.session.config), f.exit)
      <==> steps[0].Some? || steps[1].Some? || steps[2].Some? || steps[3].Some?;
    hide ManagedContext.ExitSteps, ManagedContext.Raised, Executor.JsonSafe, ExitFailed, ManagedContext.FirstFailure;
  }

  /** The shape a run reaches with the executor's inputs, case by case. */
  lemma PlaysInputs(job: ManagedContext.Job, free: bool, f: Executor.Faults, run: RunSystem.Run)
    requires Sim.ShapeOf(run)
          == Sim.Play(Sim.SoloPlan(SystemConfig(job.session.config), |f.initializers|), Sim.Start(), Inputs(job, free, f))
    ensures RunSystem.Canonical(run) == Executor.ExecutorLog(job, free, f)
    ensures run.committed <==> ReturnsNormally(job, free, f)
  {
    var p := Sim.SoloPlan(SystemConfig(job.session.config), |f.initializers|);
    var k := Entered(job, free, f);
    assert p.initial == ManagedContext.WritesInitial(job.session.config) && p.initializers == |f.initializers|;
    assert p.final == ManagedContext.WritesFinal(job.session.config);
    assert k == 4 ==> p.initial;
    if Executor.BeforeError(f.before).Some? || !ManagedContext.Acceptable(job) {
      hide RunSystem.Canonical, Sim.ShapeOf, Sim.NextShape;
      UnstartedHistory(run);
    } else if k < 8 {
      hide RunSystem.Canonical, Sim.ShapeOf, Sim.Play, EnteredShape, Sim.Start, FailedInputs, Ended;
      PlaysFailed(p, if k == 0 then 0 else k - 1);
      FailedHistory(run, k);
    } else if f.target.Some? {
      hide RunSystem.Canonical, Sim.ShapeOf, Sim.Play, EnteredShape, Sim.Start;
      EntersSmoothly(p, 7);
      LeftBehindHistory(run);
    } else {
      WholeHistory(p, job, free, f, run);
    }
  }

  lemma WholeHistory(p: Sim.Plan, job: ManagedContext.Job, free: bool, f: Executor.Faults, run: RunSystem.Run)
    requires p.initializers == |f.initializers| && p.final == ManagedContext.WritesFinal(job.session.config)
    requires Executor.BeforeError(f.before).None? && ManagedContext.Acceptable(job) && Entered(job, free, f) == 8
    requires f.target.None?
    requires Sim.ShapeOf(run) == Sim.Play(p, Sim.Start(), Repeat(7) + (WorkInputs(f) + LeaveInputs(f)))
    ensures RunSystem.Canonical(run) == Executor.ExecutorLog(job, free, f)
    ensures run.committed <==> ReturnsNormally(job, free, f)
  {
    hide RunSystem.Canonical, Sim.Play, Repeat, WorkInputs, LeaveInputs, Executor.Transacts, ManagedContext.ExitEvents,
      ManagedContext.Opening, Executor.InitializerEvents;
    PlaysWholeRun(p, job, f);
    CompleteHistory(run, job.session.config, Awaited(f), Executor.PlanRuns(f), Executor.Transacts(job, f));
    Executor.NoErrorExactly(job, None, f);
    hide Executor.RunError, Sim.ShapeOf;
  }

  /** The agreement theorem.  For every job, every state of its lock and every fault pattern
      there is a run the step system reaches from an initial world whose history is exactly
      the log the executor leaves, and which is committed exactly when the executor returns
      normally. */
  lemma ExecutorLogIsReached(c: RunSystem.Codec, job: ManagedContext.Job, free: bool, f: Executor.Faults)
    returns (w0: RunSystem.World, actions: seq<RunSystem.Action>)
    ensures RunSystem.Initial(w0)
    ensures var w := RunSystem.Exec(c, w0, actions);
            && 0 in w.runs && w.runs[0].log == Executor.ExecutorLog(job, free, f)
            && (w.runs[0].committed <==> ReturnsNormally(job, free, f))
  {
    hide *;
    var n := |f.initializers|;
    w0 := Sim.SoloWorld(SystemConfig(job.session.config));
    actions := Sim.Solo(n, Inputs(job, free, f));
    Sim.SoloBegins(c, SystemConfig(job.session.config), n);
    Sim.SoloPlays(c, SystemConfig(job.session.config), n, Inputs(job, free, f));
    PlaysInputs(job, free, f, RunSystem.Exec(c, w0, actions).runs[0]);
    RunSystem.LifecycleIsSafe(c, w0, actions);
  }

  // ------------------------------------------------------------------
  // The same verdict
  // ------------------------------------------------------------------

  /** The inputs of the four leaving steps fail where the exit's steps raise. */
  predicate SameFaults(
    w: RunSystem.World, r: RunSystem.RunId, run: RunSystem.Run, x: seq<RunSystem.Input>,
    config: ManagedContext.Config, f: ManagedContext.ExitFaults)
  {
    && |x| == 4 && run.config.persist == config.persist && run.config.captureFinal == config.captureFinal
    && (config.persist && config.captureFinal ==>
          (f.capture.NotWritten? <==> x[0].fails || RunSystem.Slot(run.profile, r, true) in w.files))
    && (x[1].fails <==> f.context.Some?) && (x[2].fails <==> f.runtime.Some?)
    && (x[3].fails <==> f.release.raised.Some? && (f.release.raised.value.kind.Control? || f.release.raised.value.kind.Bare?))
  }

  /** The four steps from capture to release, in any worlds the other runs leave in between. */
  function Leave(c: RunSystem.Codec, ws: seq<RunSystem.World>, r: RunSystem.RunId, run: RunSystem.Run, x: seq<RunSystem.Input>): RunSystem.Run
    requires |ws| == 4 && |x| == 4
  {
    var a := RunSystem.NextRun(c, ws[0], r, run, x[0]);
    var b := RunSystem.NextRun(c, ws[1], r, a, x[1]);
    var d := RunSystem.NextRun(c, ws[2], r, b, x[2]);
    RunSystem.NextRun(c, ws[3], r, d, x[3])
  }

  predicate Inside(run: RunSystem.Run) {
    && run.stage.AtCapture? && run.lock.Live? && run.runtime.Live? && run.context.Live?
    && run.entered && !run.cleanupFailed
  }

  lemma CaptureAgrees(
    c: RunSystem.Codec, w: RunSystem.World, r: RunSystem.RunId, run: RunSystem.Run, x: seq<RunSystem.Input>,
    config: ManagedContext.Config, f: ManagedContext.ExitFaults)
    requires Inside(run) && SameFaults(w, r, run, x, config, f)
    ensures var next := RunSystem.NextCapture(c, w, r, run, x[0]);
            next == run.(stage := RunSystem.AtCloseContext, tried := next.tried, log := next.log,
                         finalRef := next.finalRef, captured := next.captured,
                         cleanupFailed := ManagedContext.CaptureError(config, f).Some?)
            && run.lock.Live? && run.runtime.Live? && run.context.Live?
  {
    hide RunSystem.RefTo;
  }

  lemma ClosesContext(c: RunSystem.Codec, w: RunSystem.World, r: RunSystem.RunId, run: RunSystem.Run, x: RunSystem.Input)
    requires run.entered && run.stage.AtCloseContext? && run.context.Live?
    ensures RunSystem.NextRun(c, w, r, run, x) ==
              run.(stage := RunSystem.AtCloseRuntime, context := RunSystem.Ended, log := run.log + [ContextClosed],
                   cleanupFailed := run.cleanupFailed || x.fails)
  {
  }

  lemma ClosesRuntime(c: RunSystem.Codec, w: RunSystem.World, r: RunSystem.RunId, run: RunSystem.Run, x: RunSystem.Input)
    requires run.entered && run.stage.AtCloseRuntime? && run.runtime.Live?
    ensures RunSystem.NextRun(c, w, r, run, x) ==
              run.(stage := RunSystem.AtRelease, runtime := RunSystem.Ended, log := run.log + [RuntimeClosed],
                   cleanupFailed := run.cleanupFailed || x.fails)
  {
  }

  lemma Releases(c: RunSystem.Codec, w: RunSystem.World, r: RunSystem.RunId, run: RunSystem.Run, x: RunSystem.Input)
    requires run.entered && run.stage.AtRelease? && run.lock.Live?
    ensures RunSystem.NextRun(c, w, r, run, x) ==
              run.(stage := if !run.failed && !(run.cleanupFailed || x.fails) then RunSystem.AtPersist else RunSystem.Done,
                   lock := RunSystem.Ended, log := run.log + [Released],
                   cleanupFailed := run.cleanupFailed || x.fails)
  {
  }

  lemma StepsFit(
    w: RunSystem.World, r: RunSystem.RunId, run: RunSystem.Run, x: seq<RunSystem.Input>,
    config: ManagedContext.Config, f: ManagedContext.ExitFaults)
    requires SameFaults(w, r, run, x, config, f)
    ensures |x| == 4
    ensures ManagedContext.CaptureError(config, f).Some? || x[1].fails || x[2].fails || x[3].fails
            <==> !ManagedContext.CleanExit(config, f)
  {
  }

  lemma NextAtCapture(c: RunSystem.Codec, w: RunSystem.World, r: RunSystem.RunId, run: RunSystem.Run, x: RunSystem.Input)
    requires run.stage.AtCapture?
    ensures RunSystem.NextRun(c, w, r, run, x) == RunSystem.NextCapture(c, w, r, run, x)
  {
    hide RunSystem.NextEntering, RunSystem.NextWork, RunSystem.NextCapture, RunSystem.NextLeaving;
  }

  lemma LeaveInSteps(c: RunSystem.Codec, ws: seq<RunSystem.World>, r: RunSystem.RunId, run: RunSystem.Run, x: seq<RunSystem.Input>)
    requires |ws| == 4 && |x| == 4 && run.stage.AtCapture?
    ensures var a := RunSystem.NextCapture(c, ws[0], r, run, x[0]);
            var b := RunSystem.NextRun(c, ws[1], r, a, x[1]);
            var d := RunSystem.NextRun(c, ws[2], r, b, x[2]);
            Leave(c, ws, r, run, x) == RunSystem.NextRun(c, ws[3], r, d, x[3])
  {
    hide RunSystem.NextRun, RunSystem.NextCapture;
    NextAtCapture(c, ws[0], r, run, x[0]);
  }

  /** The step system moves on to the metadata transaction exactly when the exit records the
      run as succeeded. */
  lemma VerdictsAgree(
    c: RunSystem.Codec, ws: seq<RunSystem.World>, r: RunSystem.RunId, run: RunSystem.Run, x: seq<RunSystem.Input>,
    job: ManagedContext.Job, initial: Option<ManagedContext.ArtifactRef>, caller: Option<ManagedContext.Exc>,
    f: ManagedContext.ExitFaults)
    requires |ws| == 4 && Inside(run) && SameFaults(ws[0], r, run, x, job.session.config, f)
    requires run.failed <==> caller.Some?
    ensures var after := Leave(c, ws, r, run, x);
            && (after.stage.AtPersist? <==> ManagedContext.ExitRecord(job, initial, caller, f).status.Succeeded?)
            && (after.stage.Done? <==> ManagedContext.ExitRecord(job, initial, caller, f).status.Failed?)
            && after.lock.Ended? && after.runtime.Ended? && after.context.Ended?
  {
    var config := job.session.config;
    assert run.entered && run.stage.AtCapture? && !run.cleanupFailed;
    hide *;
    CaptureAgrees(c, ws[0], r, run, x, config, f);
    StepsFit(ws[0], r, run, x, config, f);
    LeaveInSteps(c, ws, r, run, x);
    var a := RunSystem.NextCapture(c, ws[0], r, run, x[0]);
    ClosesContext(c, ws[1], r, a, x[1]);
    var b := RunSystem.NextRun(c, ws[1], r, a, x[1]);
    ClosesRuntime(c, ws[2], r, b, x[2]);
    Releases(c, ws[3], r, RunSystem.NextRun(c, ws[2], r, b, x[2]), x[3]);
    ManagedContext.SucceededExactly(job, initial, caller, f);
  }
}
