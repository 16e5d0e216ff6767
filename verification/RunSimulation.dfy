/** One run of the step system on its own: what becomes of it for every sequence of step
    inputs, told by the part of its record that says how far it got. */
module RunSimulation {
  import opened Text
  import opened RunSystem

  datatype Shape = Shape(
    stage: Stage, lock: Resource, runtime: Resource, context: Resource, started: bool, entered: bool, ran: nat,
    planned: bool, tried: bool, failed: bool, cleanupFailed: bool, transacted: bool, committed: bool)

  function ShapeOf(run: Run): Shape {
    Shape(run.stage, run.lock, run.runtime, run.context, run.start.Some?, run.entered, run.ran, run.planned, run.tried,
          run.failed, run.cleanupFailed, run.transacted, run.committed)
  }

  /** What of a run's job decides its steps: the number of initializers, and whether it writes
      an initial and a final snapshot. */
  datatype Plan = Plan(initializers: nat, initial: bool, final: bool)

  function PlanOf(run: Run): Plan {
    Plan(run.initializers, run.config.persist && run.config.captureInitial, run.config.persist && run.config.captureFinal)
  }

  function Aborted(s: Shape): Shape { s.(stage := AtCloseContext) }

  function Noted(s: Shape, fails: bool): Shape { s.(cleanupFailed := s.cleanupFailed || (fails && s.entered)) }

  predicate Early(s: Stage) { s.AtLock? || s.AtLayout? || s.AtPrior? || s.AtInitial? }

  predicate BeforeCaptured(s: Stage) { Entering(s) || s.AtInitializers? || s.AtPlan? || s.AtCapture? }

  /** What a stage has needed for the last time is not needed again. */
  predicate MovesOn(s: Stage, next: Stage) {
    && !next.AtLock? && (Early(next) ==> Early(s) && !s.AtInitial?)
    && (BeforeCaptured(next) ==> BeforeCaptured(s) && !s.AtCapture?)
  }

  /** Entering stops here. */
  predicate Stops(p: Plan, s: Shape, fails: bool) {
    if s.stage.AtInitial? then p.initial && (fails || !s.started) else fails
  }

  function Advanced(s: Shape): (next: Shape)
    requires Entering(s.stage)
    ensures MovesOn(s.stage, next.stage)
  {
    match s.stage
    case AtLock => s.(stage := AtLayout, lock := Live)
    case AtLayout => s.(stage := AtPrior)
    case AtPrior => s.(stage := AtInitial, started := true)
    case AtInitial => s.(stage := AtLaunch)
    case AtLaunch => s.(stage := AtContext, runtime := Live)
    case AtContext => s.(stage := AtRecords, context := Live)
    case AtRecords => s.(stage := AtInitializers, entered := true)
  }

  function EnteringShape(p: Plan, s: Shape, fails: bool): (next: Shape)
    requires Entering(s.stage)
    ensures MovesOn(s.stage, next.stage)
  {
    if Stops(p, s, fails) then Aborted(s) else Advanced(s)
  }

  function WorkShape(p: Plan, s: Shape, x: Input): (next: Shape)
    requires s.stage.AtInitializers? || s.stage.AtPlan?
    ensures MovesOn(s.stage, next.stage)
  {
    if s.stage.AtPlan? then s.(planned := true, failed := x.fails, stage := AtCapture)
    else if s.ran == p.initializers then s.(stage := AtPlan)
    else if s.ran == 0 && x.scope then s.(failed := true, stage := AtCapture)
    else s.(ran := s.ran + 1, failed := x.fails, stage := if x.fails then AtCapture else AtInitializers)
  }

  function CaptureShape(p: Plan, s: Shape, fails: bool): (next: Shape)
    requires s.stage.AtCapture?
    ensures MovesOn(s.stage, next.stage)
  {
    if !p.final || s.context.Absent? then s.(stage := AtCloseContext)
    else
      var tried := s.(stage := AtCloseContext, tried := true);
      if fails then Noted(tried, true) else tried
  }

  function LeavingShape(s: Shape, x: Input): (next: Shape)
    requires Closing(s.stage) || s.stage.AtPersist? || s.stage.Done?
    ensures MovesOn(s.stage, next.stage)
  {
    match s.stage
    case AtCloseContext =>
      if s.context.Absent? then s.(stage := AtCloseRuntime)
      else Noted(s, x.fails).(stage := AtCloseRuntime, context := Ended)
    case AtCloseRuntime =>
      if s.runtime.Absent? then s.(stage := AtRelease) else Noted(s, x.fails).(stage := AtRelease, runtime := Ended)
    case AtRelease =>
      var out := if s.lock.Absent? then s else Noted(s, x.fails).(lock := Ended);
      out.(stage := if out.entered && !out.failed && !out.cleanupFailed then AtPersist else Done)
    case AtPersist =>
      if x.unsafe then s.(stage := Done) else s.(stage := Done, transacted := true, committed := !x.fails)
    case _ => s
  }

  /** The step of the shape alone. */
  function NextShape(p: Plan, s: Shape, x: Input): (next: Shape)
    ensures MovesOn(s.stage, next.stage)
  {
    if Entering(s.stage) then EnteringShape(p, s, x.fails)
    else if s.stage.AtInitializers? || s.stage.AtPlan? then WorkShape(p, s, x)
    else if s.stage.AtCapture? then CaptureShape(p, s, x.fails)
    else LeavingShape(s, x)
  }

  function Play(p: Plan, s: Shape, xs: seq<Input>): Shape {
    if xs == [] then s else NextShape(p, Play(p, s, xs[..|xs| - 1]), xs[|xs| - 1])
  }

  lemma {:induction false} PlayAppend(p: Plan, s: Shape, xs: seq<Input>, ys: seq<Input>)
    ensures Play(p, s, xs + ys) == Play(p, Play(p, s, xs), ys)
  {
    hide NextShape;
    if ys == [] {
      assert xs + ys == xs;
    } else {
      PlayAppend(p, s, xs, ys[..|ys| - 1]);
      assert (xs + ys)[..|xs + ys| - 1] == xs + ys[..|ys| - 1];
    }
  }

  lemma PlayOne(p: Plan, s: Shape, x: Input)
    ensures Play(p, s, [x]) == NextShape(p, s, x)
  {
    assert [x][..0] == [];
  }

  // ------------------------------------------------------------------
  // The step of the shape is the shape of the step
  // ------------------------------------------------------------------

  /** Nobody stands in the way of run `r`: its lock and its two files are free while it still
      needs them, and its session has no prior snapshot. */
  predicate Free(w: World, r: RunId, run: Run) {
    && run.prior.None?
    && (run.stage.AtLock? ==> run.profile !in w.locked)
    && (Early(run.stage) ==> Slot(run.profile, r, false) !in w.files)
    && (BeforeCaptured(run.stage) ==> Slot(run.profile, r, true) !in w.files)
  }

  lemma AbortIs(c: Codec, w: World, r: RunId, run: Run, x: Input)
    requires x.fails && Entering(run.stage) && !run.stage.AtInitial?
    ensures NextEntering(c, w, r, run, x) == Abort(run)
  {
    hide ReadState, Empty, RefTo, ResolvePrior, SameJob;
  }

  lemma AbortAgrees(c: Codec, w: World, r: RunId, run: Run, x: Input)
    requires x.fails && Entering(run.stage) && !run.stage.AtInitial?
    ensures ShapeOf(NextEntering(c, w, r, run, x)) == EnteringShape(PlanOf(run), ShapeOf(run), x.fails)
  {
    AbortIs(c, w, r, run, x);
    hide NextEntering, Advanced;
  }

  lemma LockAgrees(c: Codec, w: World, r: RunId, run: Run, x: Input)
    requires !x.fails && Free(w, r, run) && run.stage.AtLock?
    ensures ShapeOf(NextEntering(c, w, r, run, x)) == EnteringShape(PlanOf(run), ShapeOf(run), x.fails)
  {
  }

  lemma LayoutAgrees(c: Codec, w: World, r: RunId, run: Run, x: Input)
    requires !x.fails && run.stage.AtLayout?
    ensures ShapeOf(NextEntering(c, w, r, run, x)) == EnteringShape(PlanOf(run), ShapeOf(run), x.fails)
  {
  }

  lemma PriorAgrees(c: Codec, w: World, r: RunId, run: Run, x: Input)
    requires !x.fails && Free(w, r, run) && run.stage.AtPrior?
    ensures ShapeOf(NextEntering(c, w, r, run, x)) == EnteringShape(PlanOf(run), ShapeOf(run), x.fails)
  {
    assert ResolvePrior(c, w.files, run) == Some(Empty(run.config));
    hide ReadState, Empty, ResolvePrior, Free;
  }

  lemma NoInitialAgrees(c: Codec, w: World, r: RunId, run: Run, x: Input)
    requires !WritesInitial(run) && run.stage.AtInitial?
    ensures ShapeOf(NextEntering(c, w, r, run, x)) == EnteringShape(PlanOf(run), ShapeOf(run), x.fails)
  {
    hide RefTo;
  }

  lemma InitialFailsAgrees(c: Codec, w: World, r: RunId, run: Run, x: Input)
    requires WritesInitial(run) && (x.fails || run.start.None?) && run.stage.AtInitial?
    ensures ShapeOf(NextEntering(c, w, r, run, x)) == EnteringShape(PlanOf(run), ShapeOf(run), x.fails)
  {
    hide RefTo;
  }

  lemma InitialAgrees(c: Codec, w: World, r: RunId, run: Run, x: Input)
    requires WritesInitial(run) && !x.fails && run.start.Some? && Free(w, r, run) && run.stage.AtInitial?
    ensures ShapeOf(NextEntering(c, w, r, run, x)) == EnteringShape(PlanOf(run), ShapeOf(run), x.fails)
  {
    hide RefTo;
  }

  lemma LaunchAgrees(c: Codec, w: World, r: RunId, run: Run, x: Input)
    requires !x.fails && run.stage.AtLaunch?
    ensures ShapeOf(NextEntering(c, w, r, run, x)) == EnteringShape(PlanOf(run), ShapeOf(run), x.fails)
  {
  }

  lemma ContextAgrees(c: Codec, w: World, r: RunId, run: Run, x: Input)
    requires !x.fails && run.stage.AtContext?
    ensures ShapeOf(NextEntering(c, w, r, run, x)) == EnteringShape(PlanOf(run), ShapeOf(run), x.fails)
  {
  }

  lemma RecordsAgrees(c: Codec, w: World, r: RunId, run: Run, x: Input)
    requires !x.fails && run.stage.AtRecords?
    ensures ShapeOf(NextEntering(c, w, r, run, x)) == EnteringShape(PlanOf(run), ShapeOf(run), x.fails)
  {
  }

  lemma EnteringAgrees(c: Codec, w: World, r: RunId, run: Run, x: Input)
    requires Free(w, r, run) && Entering(run.stage)
    ensures ShapeOf(NextEntering(c, w, r, run, x)) == EnteringShape(PlanOf(run), ShapeOf(run), x.fails)
  {
    hide NextEntering, EnteringShape, Free, ShapeOf, WritesInitial;
    if run.stage.AtInitial? {
      if !WritesInitial(run) { NoInitialAgrees(c, w, r, run, x); }
      else if x.fails || run.start.None? { InitialFailsAgrees(c, w, r, run, x); }
      else { InitialAgrees(c, w, r, run, x); }
    } else if x.fails { AbortAgrees(c, w, r, run, x); }
    else if run.stage.AtLock? { LockAgrees(c, w, r, run, x); }
    else if run.stage.AtLayout? { LayoutAgrees(c, w, r, run, x); }
    else if run.stage.AtPrior? { PriorAgrees(c, w, r, run, x); }
    else if run.stage.AtLaunch? { LaunchAgrees(c, w, r, run, x); }
    else if run.stage.AtContext? { ContextAgrees(c, w, r, run, x); }
    else { RecordsAgrees(c, w, r, run, x); }
  }

  lemma PlanAgrees(run: Run, x: Input)
    requires run.stage.AtPlan?
    ensures ShapeOf(NextWork(run, x)) == WorkShape(PlanOf(run), ShapeOf(run), x)
  {
  }

  lemma InitializedAgrees(run: Run, x: Input)
    requires run.stage.AtInitializers? && run.ran == run.initializers
    ensures ShapeOf(NextWork(run, x)) == WorkShape(PlanOf(run), ShapeOf(run), x)
  {
  }

  lemma ScopeAgrees(run: Run, x: Input)
    requires run.stage.AtInitializers? && run.ran == 0 != run.initializers && x.scope
    ensures ShapeOf(NextWork(run, x)) == WorkShape(PlanOf(run), ShapeOf(run), x)
  {
  }

  lemma InitializerAgrees(run: Run, x: Input)
    requires run.stage.AtInitializers? && run.ran != run.initializers && !(run.ran == 0 && x.scope)
    ensures ShapeOf(NextWork(run, x)) == WorkShape(PlanOf(run), ShapeOf(run), x)
  {
  }

  lemma WorkAgrees(run: Run, x: Input)
    requires run.stage.AtInitializers? || run.stage.AtPlan?
    ensures ShapeOf(NextWork(run, x)) == WorkShape(PlanOf(run), ShapeOf(run), x)
  {
    hide NextWork, WorkShape, ShapeOf;
    if run.stage.AtPlan? { PlanAgrees(run, x); }
    else if run.ran == run.initializers { InitializedAgrees(run, x); }
    else if run.ran == 0 && x.scope { ScopeAgrees(run, x); }
    else { InitializerAgrees(run, x); }
  }

  lemma NoCaptureAgrees(c: Codec, w: World, r: RunId, run: Run, x: Input)
    requires run.stage.AtCapture? && !WritesFinal(run)
    ensures ShapeOf(NextCapture(c, w, r, run, x)) == CaptureShape(PlanOf(run), ShapeOf(run), x.fails)
  {
    hide RefTo;
  }

  lemma CaptureFailsAgrees(c: Codec, w: World, r: RunId, run: Run, x: Input)
    requires run.stage.AtCapture? && WritesFinal(run) && x.fails
    ensures ShapeOf(NextCapture(c, w, r, run, x)) == CaptureShape(PlanOf(run), ShapeOf(run), x.fails)
  {
    hide RefTo;
  }

  lemma CapturedAgrees(c: Codec, w: World, r: RunId, run: Run, x: Input)
    requires Free(w, r, run) && run.stage.AtCapture? && WritesFinal(run) && !x.fails
    ensures ShapeOf(NextCapture(c, w, r, run, x)) == CaptureShape(PlanOf(run), ShapeOf(run), x.fails)
  {
    hide RefTo;
  }

  lemma CaptureAgrees(c: Codec, w: World, r: RunId, run: Run, x: Input)
    requires Free(w, r, run) && run.stage.AtCapture?
    ensures ShapeOf(NextCapture(c, w, r, run, x)) == CaptureShape(PlanOf(run), ShapeOf(run), x.fails)
  {
    hide NextCapture, CaptureShape, ShapeOf, Free, WritesFinal;
    if !WritesFinal(run) { NoCaptureAgrees(c, w, r, run, x); }
    else if x.fails { CaptureFailsAgrees(c, w, r, run, x); }
    else { CapturedAgrees(c, w, r, run, x); }
  }

  lemma NothingToCloseAgrees(run: Run, x: Input)
    requires (run.stage.AtCloseContext? && run.context.Absent?) || (run.stage.AtCloseRuntime? && run.runtime.Absent?)
    ensures ShapeOf(NextLeaving(run, x)) == LeavingShape(ShapeOf(run), x)
  {
  }

  lemma CloseContextAgrees(run: Run, x: Input)
    requires run.stage.AtCloseContext? && !run.context.Absent?
    ensures ShapeOf(NextLeaving(run, x)) == LeavingShape(ShapeOf(run), x)
  {
  }

  lemma CloseRuntimeAgrees(run: Run, x: Input)
    requires run.stage.AtCloseRuntime? && !run.runtime.Absent?
    ensures ShapeOf(NextLeaving(run, x)) == LeavingShape(ShapeOf(run), x)
  {
  }

  lemma NothingToReleaseAgrees(run: Run, x: Input)
    requires run.stage.AtRelease? && run.lock.Absent?
    ensures ShapeOf(NextLeaving(run, x)) == LeavingShape(ShapeOf(run), x)
  {
  }

  lemma ReleaseEnteredAgrees(run: Run, x: Input)
    requires run.stage.AtRelease? && !run.lock.Absent? && run.entered
    ensures ShapeOf(NextLeaving(run, x)) == LeavingShape(ShapeOf(run), x)
  {
  }

  lemma ReleaseAgrees(run: Run, x: Input)
    requires run.stage.AtRelease? && !run.lock.Absent? && !run.entered
    ensures ShapeOf(NextLeaving(run, x)) == LeavingShape(ShapeOf(run), x)
  {
  }

  lemma PersistAgrees(run: Run, x: Input)
    requires run.stage.AtPersist? && !x.unsafe
    ensures ShapeOf(NextLeaving(run, x)) == LeavingShape(ShapeOf(run), x)
  {
  }

  lemma NoPersistAgrees(run: Run, x: Input)
    requires run.stage.Done? || (run.stage.AtPersist? && x.unsafe)
    ensures ShapeOf(NextLeaving(run, x)) == LeavingShape(ShapeOf(run), x)
  {
  }

  lemma LeavingAgrees(run: Run, x: Input)
    requires Closing(run.stage) || run.stage.AtPersist? || run.stage.Done?
    ensures ShapeOf(NextLeaving(run, x)) == LeavingShape(ShapeOf(run), x)
  {
    hide NextLeaving, LeavingShape, ShapeOf;
    if run.stage.AtCloseContext? {
      if run.context.Absent? { NothingToCloseAgrees(run, x); } else { CloseContextAgrees(run, x); }
    } else if run.stage.AtCloseRuntime? {
      if run.runtime.Absent? { NothingToCloseAgrees(run, x); } else { CloseRuntimeAgrees(run, x); }
    } else if run.stage.AtRelease? {
      if run.lock.Absent? { NothingToReleaseAgrees(run, x); }
      else if run.entered { ReleaseEnteredAgrees(run, x); }
      else { ReleaseAgrees(run, x); }
    } else if run.stage.Done? || x.unsafe { NoPersistAgrees(run, x); } else { PersistAgrees(run, x); }
  }

  lemma StepAgrees(c: Codec, w: World, r: RunId, run: Run, x: Input)
    requires Free(w, r, run)
    ensures ShapeOf(NextRun(c, w, r, run, x)) == NextShape(PlanOf(run), ShapeOf(run), x)
    ensures PlanOf(NextRun(c, w, r, run, x)) == PlanOf(run)
  {
    assert ShapeOf(run).stage == run.stage;
    hide NextEntering, NextWork, NextCapture, NextLeaving, EnteringShape, WorkShape, CaptureShape, LeavingShape, Free,
      ShapeOf;
    if Entering(run.stage) { EnteringAgrees(c, w, r, run, x); }
    else if run.stage.AtInitializers? || run.stage.AtPlan? { WorkAgrees(run, x); }
    else if run.stage.AtCapture? { CaptureAgrees(c, w, r, run, x); }
    else { LeavingAgrees(run, x); }
  }

  // ------------------------------------------------------------------
  // A run alone in its world
  // ------------------------------------------------------------------

  /** One session without snapshots on a free profile. */
  function SoloWorld(config: Config): World {
    World(map[0 := Session(0, config, None, None)], {}, {}, map[], map[], [])
  }

  function Solo(n: nat, xs: seq<Input>): seq<Action> { [Begin(0, 0, n)] + seq(|xs|, i requires 0 <= i < |xs| => Step(0, xs[i])) }

  function Start(): Shape {
    Shape(AtLock, Absent, Absent, Absent, false, false, 0, false, false, false, false, false, false)
  }

  function SoloPlan(config: Config, n: nat): Plan {
    Plan(n, config.persist && config.captureInitial, config.persist && config.captureFinal)
  }

  lemma FilesAfter(c: Codec, w: World, x: Input, next: Run)
    requires 0 in w.runs && next == NextRun(c, w, 0, w.runs[0], x)
    ensures var run := w.runs[0];
            var w' := StepRun(c, w, 0, x);
            && 0 in w'.runs && w'.runs[0] == next
            && (!run.stage.AtInitial? && !run.stage.AtCapture? ==> w'.files == w.files)
            && (run.stage.AtInitial? ==> w'.files.Keys <= w.files.Keys + {Slot(run.profile, 0, false)})
  {
    hide NextRun, NextLocked;
  }

  lemma FreeStep(c: Codec, w: World, x: Input)
    requires 0 in w.runs && Free(w, 0, w.runs[0])
    ensures var w' := StepRun(c, w, 0, x);
            && 0 in w'.runs && w'.runs[0] == NextRun(c, w, 0, w.runs[0], x) && Free(w', 0, w'.runs[0])
  {
    var run := w.runs[0];
    var next := NextRun(c, w, 0, run, x);
    assert SameJob(run, next);
    StepAgrees(c, w, 0, run, x);
    assert MovesOn(run.stage, next.stage) by {
      assert ShapeOf(run).stage == run.stage && ShapeOf(next).stage == next.stage;
      hide NextShape, ShapeOf, NextRun;
    }
    FilesAfter(c, w, x, next);
    hide NextRun, StepRun, NextShape, ShapeOf;
  }

  lemma {:induction false} SoloPlays(c: Codec, config: Config, n: nat, xs: seq<Input>)
    ensures var w := Exec(c, SoloWorld(config), Solo(n, xs));
            && 0 in w.runs && Free(w, 0, w.runs[0]) && PlanOf(w.runs[0]) == SoloPlan(config, n)
            && ShapeOf(w.runs[0]) == Play(SoloPlan(config, n), Start(), xs)
    decreases |xs|
  {
    if xs == [] {
      SoloBegins(c, config, n);
      assert Solo(n, xs) == [Begin(0, 0, n)];
    } else {
      var before, last := xs[..|xs| - 1], xs[|xs| - 1];
      SoloPlays(c, config, n, before);
      assert Solo(n, xs)[..|Solo(n, xs)| - 1] == Solo(n, before) && Solo(n, xs)[|Solo(n, xs)| - 1] == Step(0, last);
      var w := Exec(c, SoloWorld(config), Solo(n, before));
      assert Exec(c, SoloWorld(config), Solo(n, xs)) == StepRun(c, w, 0, last) by {
        hide StepRun, Solo, SoloWorld, Free, PlanOf, ShapeOf, Play;
      }
      hide Exec, StepRun, NextRun, NextShape, Free, ShapeOf, PlanOf, Solo, SoloWorld;
      FreeStep(c, w, last);
      StepAgrees(c, w, 0, w.runs[0], last);
    }
  }

  lemma SoloBegins(c: Codec, config: Config, n: nat)
    ensures Initial(SoloWorld(config))
    ensures var w := Exec(c, SoloWorld(config), [Begin(0, 0, n)]);
            && 0 in w.runs && Free(w, 0, w.runs[0]) && PlanOf(w.runs[0]) == SoloPlan(config, n)
            && ShapeOf(w.runs[0]) == Start()
  {
    var begin := [Begin(0, 0, n)];
    assert begin[..0] == [];
    assert Exec(c, SoloWorld(config), begin) == Apply(c, SoloWorld(config), Begin(0, 0, n));
    hide Exec, StepRun;
  }
}
