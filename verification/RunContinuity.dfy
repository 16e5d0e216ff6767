/** What one run of the step system takes over from another, said about the files on disk:
    when a run finds the state its session left, and what it leaves for the next. */
module RunContinuity {
  import opened Text
  import opened FileTree
  import opened RunSystem

  // ------------------------------------------------------------------
  // Reading
  // ------------------------------------------------------------------

  /** The snapshot of state `s` is at its place, untouched. */
  ghost predicate OnDisk(c: Codec, files: map<Slot, Bytes>, slot: Slot, s: BrowserState) {
    slot in files && files[slot] == c.encode(s)
  }

  /** A reference to it can be read exactly while that is so. */
  lemma ReadsExactly(c: Codec, files: map<Slot, Bytes>, slot: Slot, s: BrowserState)
    requires Sound(c)
    ensures ReadState(c, files, RefTo(c, slot, s)) == if OnDisk(c, files, slot, s) then Some(s) else None
  {
    assert c.decode(c.encode(s)) == Some(s);
    assert slot in files && c.hash(files[slot]) == c.hash(c.encode(s)) ==> files[slot] == c.encode(s);
  }

  /** The last commit of the run's session when the run was loaded. */
  ghost predicate LastSeen(w: World, run: Run, i: nat) {
    && i < run.seen <= |w.commits| && w.commits[i].session == run.session
    && forall j :: i < j < run.seen ==> w.commits[j].session != run.session
  }

  lemma {:induction false} LatestIsLastSeen(commits: seq<Commit>, n: nat, session: SessionId, i: nat)
    requires i < n <= |commits| && commits[i].session == session
    requires forall j :: i < j < n ==> commits[j].session != session
    ensures LatestAt(commits, n, session) == commits[i].finalRef
  {
    if i < n - 1 { LatestIsLastSeen(commits, n - 1, session, i); }
  }

  lemma {:induction false} NoneSeenIsNone(commits: seq<Commit>, n: nat, session: SessionId)
    requires n <= |commits| && forall j :: 0 <= j < n ==> commits[j].session != session
    ensures LatestAt(commits, n, session) == None
  {
    if n > 0 { NoneSeenIsNone(commits, n - 1, session); }
  }

  /** The place of the final snapshot of commit `i`. */
  function FinalSlot(w: World, i: nat): Slot
    requires i < |w.commits| && w.commits[i].run in w.runs
  {
    Slot(w.runs[w.commits[i].run].profile, w.commits[i].run, true)
  }

  lemma CommitRefers(c: Codec, w: World, i: nat)
    requires ProvenanceInv(c, w) && i < |w.commits|
    ensures var k := w.commits[i];
            && k.run in w.runs
            && (k.finalState.None? ==> k.finalRef.None?)
            && (k.finalState.Some? ==> k.finalRef == Some(RefTo(c, FinalSlot(w, i), k.finalState.value)))
  {
    var k := w.commits[i];
    assert CommitInv(c, w, k);
    assert Provenance(c, w, k.run, w.runs[k.run]);
    hide LatestAt, RefTo;
  }

  lemma PriorStep(c: Codec, w: World, r: RunId, x: Input)
    requires r in w.runs && w.runs[r].stage.AtPrior? && !x.fails
    ensures r in StepRun(c, w, r, x).runs
    ensures StepRun(c, w, r, x).runs[r] == WithPrior(w.runs[r], ResolvePrior(c, w.files, w.runs[r]), false)
  {
    hide ResolvePrior;
  }

  lemma PriorResolves(c: Codec, files: map<Slot, Bytes>, run: Run)
    ensures run.config.persist && run.prior.Some? ==> ResolvePrior(c, files, run) == ReadState(c, files, run.prior.value)
    ensures !(run.config.persist && run.prior.Some?) ==>
              ResolvePrior(c, files, run) == Some(BrowserState(run.config.engine, []))
  {
    hide ReadState;
  }

  lemma PriorIsLatest(c: Codec, w: World, r: RunId)
    requires ProvenanceInv(c, w) && r in w.runs
    ensures var run := w.runs[r];
            run.seen <= |w.commits| && run.prior == LatestAt(w.commits, run.seen, run.session)
  {
    assert Provenance(c, w, r, w.runs[r]);
    hide LatestAt;
  }

  /** What a run starts from, in every reachable world.  If the last commit of its session when
      it was loaded captured a state, it goes on, with exactly that state, if and only if the
      snapshot is on disk untouched, and is given up otherwise; without such a commit, or
      without persistence, it goes on with the empty state of its engine. */
  lemma PriorStepExactly(c: Codec, w0: World, actions: seq<Action>, r: RunId, x: Input, i: nat)
    requires Sound(c) && Initial(w0)
    requires var w := Exec(c, w0, actions); r in w.runs && w.runs[r].stage.AtPrior? && !x.fails
    ensures var w := Exec(c, w0, actions);
            var run, next := w.runs[r], StepRun(c, w, r, x).runs[r];
            && (run.config.persist && LastSeen(w, run, i) && w.commits[i].finalState.Some? ==>
                  && w.commits[i].run in w.runs
                  && if OnDisk(c, w.files, FinalSlot(w, i), w.commits[i].finalState.value)
                     then next.stage.AtInitial? && next.start == w.commits[i].finalState
                     else next.stage.AtCloseContext? && next.start == run.start)
            && (!run.config.persist || (LastSeen(w, run, i) && w.commits[i].finalState.None?)
                || (forall j :: 0 <= j < run.seen <= |w.commits| ==> w.commits[j].session != run.session) ==>
                  next.stage.AtInitial? && next.start == Some(BrowserState(run.config.engine, [])))
  {
    hide *;
    var w := Exec(c, w0, actions);
    ExecKeepsProvenance(c, w0, actions);
    PriorStep(c, w, r, x);
    PriorStepIs(c, w, r, StepRun(c, w, r, x).runs[r], i);
  }

  lemma PriorStepIs(c: Codec, w: World, r: RunId, next: Run, i: nat)
    requires Sound(c) && ProvenanceInv(c, w) && r in w.runs
    requires next == WithPrior(w.runs[r], ResolvePrior(c, w.files, w.runs[r]), false)
    ensures var run := w.runs[r];
            && (run.config.persist && LastSeen(w, run, i) && w.commits[i].finalState.Some? ==>
                  && w.commits[i].run in w.runs
                  && if OnDisk(c, w.files, FinalSlot(w, i), w.commits[i].finalState.value)
                     then next.stage.AtInitial? && next.start == w.commits[i].finalState
                     else next.stage.AtCloseContext? && next.start == run.start)
            && (!run.config.persist || (LastSeen(w, run, i) && w.commits[i].finalState.None?)
                || (forall j :: 0 <= j < run.seen <= |w.commits| ==> w.commits[j].session != run.session) ==>
                  next.stage.AtInitial? && next.start == Some(BrowserState(run.config.engine, [])))
  {
    PriorResolvesTo(c, w, r, i);
    hide ProvenanceInv, ResolvePrior, OnDisk, LastSeen, Sound, WithPrior;
  }

  lemma PriorResolvesTo(c: Codec, w: World, r: RunId, i: nat)
    requires Sound(c) && ProvenanceInv(c, w) && r in w.runs
    ensures var run, state := w.runs[r], ResolvePrior(c, w.files, w.runs[r]);
            && (run.config.persist && LastSeen(w, run, i) && w.commits[i].finalState.Some? ==>
                  && w.commits[i].run in w.runs
                  && state == if OnDisk(c, w.files, FinalSlot(w, i), w.commits[i].finalState.value)
                              then w.commits[i].finalState else None)
            && (!run.config.persist || (LastSeen(w, run, i) && w.commits[i].finalState.None?)
                || (forall j :: 0 <= j < run.seen <= |w.commits| ==> w.commits[j].session != run.session) ==>
                  state == Some(BrowserState(run.config.engine, [])))
  {
    hide *;
    var run := w.runs[r];
    PriorIsLatest(c, w, r);
    PriorResolves(c, w.files, run);
    if LastSeen(w, run, i) {
      LastSeenIsLatest(w, run, i);
      CommitRefers(c, w, i);
      if w.commits[i].finalState.Some? { ReadsExactly(c, w.files, FinalSlot(w, i), w.commits[i].finalState.value); }
    }
    if forall j :: 0 <= j < run.seen ==> w.commits[j].session != run.session {
      NoneSeenIsNone(w.commits, run.seen, run.session);
    }
  }

  lemma LastSeenIsLatest(w: World, run: Run, i: nat)
    requires LastSeen(w, run, i)
    ensures i < |w.commits| && run.seen <= |w.commits|
    ensures LatestAt(w.commits, run.seen, run.session) == w.commits[i].finalRef
  {
    LatestIsLastSeen(w.commits, run.seen, run.session, i);
  }

  // ------------------------------------------------------------------
  // What every run keeps to
  // ------------------------------------------------------------------

  /** Every run uses the profile and the configuration of its session. */
  ghost predicate RunsBelong(w: World) {
    forall r :: r in w.runs ==>
      && w.runs[r].session in w.sessions
      && w.runs[r].profile == w.sessions[w.runs[r].session].profile
      && w.runs[r].config == w.sessions[w.runs[r].session].config
  }

  lemma CommitsKeepSessions(w: World, r: RunId, run: Run, next: Run)
    ensures var w' := Commits(w, r, run, next);
            && w'.sessions.Keys == w.sessions.Keys
            && forall s :: s in w.sessions ==>
                 w'.sessions[s].profile == w.sessions[s].profile && w'.sessions[s].config == w.sessions[s].config
  {
  }

  lemma ApplyKeepsBelonging(c: Codec, w: World, a: Action)
    requires RunsBelong(w)
    ensures RunsBelong(Apply(c, w, a))
  {
    if a.Step? && a.run in w.runs {
      var run := w.runs[a.run];
      CommitsKeepSessions(w, a.run, run, NextRun(c, w, a.run, run, a.input));
      hide NextRun, Commits, NextLocked, NextFiles;
    } else {
      hide StepRun;
    }
  }

  lemma {:induction false} RunsBelongToSessions(c: Codec, w0: World, actions: seq<Action>)
    requires Initial(w0)
    ensures RunsBelong(Exec(c, w0, actions))
    decreases |actions|
  {
    if actions != [] {
      var before := actions[..|actions| - 1];
      RunsBelongToSessions(c, w0, before);
      hide Apply;
      ApplyKeepsBelonging(c, Exec(c, w0, before), actions[|actions| - 1]);
    }
  }

  /** A run has no initial reference before it comes to write one, and has captured nothing
      before it comes to capture. */
  predicate Unwritten(run: Run) {
    && (!PastInitial(run.stage) ==> run.initialRef.None?)
    && (!PastFinal(run.stage) ==> run.finalRef.None? && run.captured.None?)
  }

  lemma FromLayout(run: Run, fails: bool)
    ensures var next := if fails then Abort(run) else run.(stage := AtPrior);
            SameRefs(run, next) && next.lock == run.lock && (next.stage == AtPrior || next.stage == AtCloseContext)
  {
  }

  /** `s` is behind the writing of the initial snapshot, and of the final one. */
  predicate PastInitial(s: Stage) { !(s == AtLock || s == AtLayout || s == AtPrior || s == AtInitial) }

  predicate PastFinal(s: Stage) {
    s == AtCloseContext || s == AtCloseRuntime || s == AtRelease || s == AtPersist || s == Done
  }

  predicate OnlyForward(run: Run, next: Run) {
    && (PastInitial(run.stage) ==> PastInitial(next.stage)) && (PastFinal(run.stage) ==> PastFinal(next.stage))
  }

  lemma OthersKeepRefs(c: Codec, w: World, r: RunId, run: Run, x: Input)
    requires run.stage != AtInitial && run.stage != AtCapture
    ensures var next := NextRun(c, w, r, run, x);
            && SameRefs(run, next) && OnlyForward(run, next)
            && (run.lock.Live? ==> (next.lock.Live? <==> run.stage != AtRelease))
  {
    hide NextLock, WithPrior, NextOpening, NextWork, NextLeaving, ResolvePrior, SameRefs;
    if run.stage == AtLayout { FromLayout(run, x.fails); }
  }

  lemma NextAtInitial(c: Codec, w: World, r: RunId, run: Run, x: Input)
    ensures run.stage.AtInitial? ==> NextRun(c, w, r, run, x) == NextInitial(c, w, r, run, x)
    ensures run.stage.AtCapture? ==> NextRun(c, w, r, run, x) == NextCapture(c, w, r, run, x)
  {
    hide NextInitial, NextCapture, NextLock, WithPrior, NextOpening, NextWork, NextLeaving, ResolvePrior;
  }

  lemma NextKeepsUnwritten(c: Codec, w: World, r: RunId, run: Run, x: Input)
    requires Unwritten(run)
    ensures Unwritten(NextRun(c, w, r, run, x))
  {
    NextAtInitial(c, w, r, run, x);
    hide NextRun, NextInitial, NextCapture, RefTo;
    if run.stage != AtInitial && run.stage != AtCapture { OthersKeepRefs(c, w, r, run, x); }
  }

  ghost predicate AllUnwritten(w: World) { forall r :: r in w.runs ==> Unwritten(w.runs[r]) }

  lemma ApplyKeepsUnwritten(c: Codec, w: World, a: Action)
    requires AllUnwritten(w)
    ensures AllUnwritten(Apply(c, w, a))
  {
    if a.Step? && a.run in w.runs {
      NextKeepsUnwritten(c, w, a.run, w.runs[a.run], a.input);
      hide NextRun, Unwritten, Commits, NextLocked, NextFiles;
    } else {
      hide StepRun;
    }
  }

  lemma {:induction false} ExecKeepsUnwritten(c: Codec, w0: World, actions: seq<Action>)
    requires Initial(w0)
    ensures AllUnwritten(Exec(c, w0, actions))
    decreases |actions|
  {
    hide Apply;
    if actions != [] {
      var before := actions[..|actions| - 1];
      ExecKeepsUnwritten(c, w0, before);
      ApplyKeepsUnwritten(c, Exec(c, w0, before), actions[|actions| - 1]);
    }
  }

  /** `slot` holds the state `s`, and `ref` names it with its hash and size. */
  ghost predicate Stored(c: Codec, files: map<Slot, Bytes>, slot: Slot, ref: Option<Ref>, s: Option<BrowserState>) {
    && slot in files && s.Some? && files[slot] == c.encode(s.value)
    && ref == Some(Ref(slot, c.hash(files[slot]), |files[slot]|))
  }

  /** Write-once over every interleaving: a step of a run changes no file that is there; a file
      it adds is the run's own initial or final snapshot, holds the state the run started from
      or captured, and is the one its reference names; and a reference is only set together
      with its file. */
  ghost predicate WritesOnce(c: Codec, w: World, w': World, r: RunId)
    requires r in w.runs && r in w'.runs
  {
    var run, next := w.runs[r], w'.runs[r];
    var first, last := Slot(run.profile, r, false), Slot(run.profile, r, true);
    && (forall slot :: slot in w.files ==> slot in w'.files && w'.files[slot] == w.files[slot])
    && (forall slot :: slot in w'.files && slot !in w.files ==> slot == first || slot == last)
    && (first in w'.files && first !in w.files ==> Stored(c, w'.files, first, next.initialRef, next.start))
    && (last in w'.files && last !in w.files ==> Stored(c, w'.files, last, next.finalRef, next.captured))
    && (next.initialRef != run.initialRef ==> first in w'.files && first !in w.files)
    && (next.finalRef != run.finalRef ==> last in w'.files && last !in w.files)
  }

  lemma StepsWriteOnce(c: Codec, w0: World, actions: seq<Action>, r: RunId, x: Input)
    requires Initial(w0) && r in Exec(c, w0, actions).runs
    ensures WritesOnce(c, Exec(c, w0, actions), StepRun(c, Exec(c, w0, actions), r, x), r)
  {
    var w := Exec(c, w0, actions);
    ExecKeepsUnwritten(c, w0, actions);
    assert Unwritten(w.runs[r]);
    hide Exec, StepRun;
    StepsAre(c, w, r, x);
    if w.runs[r].stage.AtInitial? { InitialWritesOnce(c, w, StepRun(c, w, r, x), r, x); }
    else if w.runs[r].stage.AtCapture? { CaptureWritesOnce(c, w, StepRun(c, w, r, x), r, x); }
    else { OthersWriteNothing(c, w, StepRun(c, w, r, x), r, x); }
  }

  /** A step takes the run, the locks and the files along. */
  predicate IsStep(c: Codec, w: World, w': World, r: RunId, x: Input) {
    && r in w.runs && r in w'.runs
    && var run := w.runs[r];
       var next := NextRun(c, w, r, run, x);
       && w'.runs[r] == next && w'.files == NextFiles(c, w, r, run, next) && w'.locked == NextLocked(w, run, next, x)
  }

  lemma StepsAre(c: Codec, w: World, r: RunId, x: Input)
    requires r in w.runs
    ensures IsStep(c, w, StepRun(c, w, r, x), r, x)
  {
    hide NextRun, NextFiles, NextLocked, Commits;
  }

  lemma InitialWritesOnce(c: Codec, w: World, w': World, r: RunId, x: Input)
    requires IsStep(c, w, w', r, x) && w.runs[r].stage.AtInitial? && Unwritten(w.runs[r])
    ensures WritesOnce(c, w, w', r)
  {
    var run := w.runs[r];
    NextAtInitial(c, w, r, run, x);
    hide NextRun, NextInitial, NextLocked;
  }

  lemma CaptureWritesOnce(c: Codec, w: World, w': World, r: RunId, x: Input)
    requires IsStep(c, w, w', r, x) && w.runs[r].stage.AtCapture? && Unwritten(w.runs[r])
    ensures WritesOnce(c, w, w', r)
  {
    var run, slot := w.runs[r], Slot(w.runs[r].profile, r, true);
    NextAtInitial(c, w, r, run, x);
    var next := w'.runs[r];
    assert next.initialRef == run.initialRef;
    if next.finalRef.Some? {
      assert slot !in w.files && next.captured.Some? && w'.files == w.files[slot := c.encode(next.captured.value)];
      assert Stored(c, w'.files, slot, next.finalRef, next.captured);
    } else {
      assert w'.files == w.files;
    }
    hide NextRun, NextCapture, NextLocked, NextFiles, IsStep, Stored, Unwritten, RefTo;
  }

  lemma OthersWriteNothing(c: Codec, w: World, w': World, r: RunId, x: Input)
    requires IsStep(c, w, w', r, x) && !w.runs[r].stage.AtInitial? && !w.runs[r].stage.AtCapture?
    ensures WritesOnce(c, w, w', r) && w'.files == w.files
  {
    OthersKeepRefs(c, w, r, w.runs[r], x);
    hide NextRun, NextLocked;
  }

  /** A step of a run that holds its lock frees the profile exactly when it is the release and
      the release gets through; no other profile's lock is touched. */
  lemma ReleaseFreesExactly(c: Codec, w: World, r: RunId, x: Input)
    requires r in w.runs && w.runs[r].lock.Live? && w.runs[r].profile in w.locked
    ensures var w' := StepRun(c, w, r, x);
            && (w.runs[r].profile !in w'.locked <==> w.runs[r].stage.AtRelease? && !x.stuck)
            && w'.locked - {w.runs[r].profile} == w.locked - {w.runs[r].profile}
  {
    var run := w.runs[r];
    StepsAre(c, w, r, x);
    if !run.stage.AtInitial? && !run.stage.AtCapture? { OthersKeepRefs(c, w, r, run, x); }
    else { NextAtInitial(c, w, r, run, x); }
    hide StepRun, NextRun, NextInitial, NextCapture, NextFiles;
  }

  // ------------------------------------------------------------------
  // Run after run
  // ------------------------------------------------------------------

  /** A run that has just been loaded, on a free profile and with nothing at its two places. */
  predicate Fresh(w: World, r: RunId) {
    && r in w.runs && w.runs[r].session in w.sessions
    && w.runs[r] == Loaded(w, w.runs[r].session, w.runs[r].initializers)
    && w.runs[r].profile !in w.locked
    && Slot(w.runs[r].profile, r, false) !in w.files && Slot(w.runs[r].profile, r, true) !in w.files
  }

  /** `s` is what the run will find: the snapshot its session names, on disk untouched, or the
      empty state of its engine. */
  ghost predicate Finds(c: Codec, w: World, run: Run, s: BrowserState) {
    if run.config.persist && run.prior.Some? then
      && run.prior == Some(Ref(run.prior.value.slot, c.hash(c.encode(s)), |c.encode(s)|))
      && OnDisk(c, w.files, run.prior.value.slot, s)
    else s == BrowserState(run.config.engine, [])
  }

  /** Liveness: a fresh run whose every step succeeds commits, passes on what it finds, and
      leaves exactly what it was asked to leave. */
  lemma UndisturbedRunCommits(c: Codec, w: World, r: RunId, x: Input, s: BrowserState)
    requires Sound(c) && Fresh(w, r) && Finds(c, w, w.runs[r], s) && Smooth(x)
    ensures CommittedBy(c, w, Drive(c, w, r, x, 14 + w.runs[r].initializers), r, x, s)
  {
    var run := w.runs[r];
    PriorResolves(c, w.files, run);
    if run.config.persist && run.prior.Some? { ReadsExactly(c, w.files, run.prior.value.slot, s); }
    assert Ready(c, w, r) by { hide ResolvePrior; }
    hide *;
    ReadyRunCommits(c, w, r, x, s);
  }

  /** Run `q`, begun when run `r` is through, and driven to its end. */
  function Succession(c: Codec, w: World, r: RunId, x: Input, q: RunId, n: nat, y: Input): World
    requires r in w.runs
  {
    var committed := Drive(c, w, r, x, 14 + w.runs[r].initializers);
    Drive(c, Apply(c, committed, Begin(q, w.runs[r].session, n)), q, y, 14 + n)
  }

  /** `q` passed on `s` and committed, and its session's latest final state, on disk, is `t`. */
  ghost predicate CarriedOn(c: Codec, w: World, q: RunId, session: SessionId, s: BrowserState, t: BrowserState) {
    && q in w.runs && w.runs[q].committed && w.runs[q].passed == Some(Some(s))
    && session in w.sessions && w.sessions[session].latestFinal.Some?
    && var ref := w.sessions[session].latestFinal.value;
       ref == Ref(ref.slot, c.hash(c.encode(t)), |c.encode(t)|) && OnDisk(c, w.files, ref.slot, t)
  }

  /** The next run of a session, loaded after a smooth capturing run has committed, passes on
      exactly the state that run captured, and commits in turn: from its session's latest
      final state to its session's latest final state. */
  lemma SuccessorStartsFromIt(
    c: Codec, w: World, r: RunId, x: Input, s: BrowserState, q: RunId, n: nat, y: Input)
    requires Sound(c) && Fresh(w, r) && Finds(c, w, w.runs[r], s) && Smooth(x) && Smooth(y)
    requires w.runs[r].config.persist && w.runs[r].config.captureFinal
    requires q !in w.runs && forall final :: Slot(w.runs[r].profile, q, final) !in w.files
    ensures CarriedOn(c, Succession(c, w, r, x, q, n, y), q, w.runs[r].session, x.state, y.state)
  {
    hide *;
    FreshIsThere(w, r);
    var committed := Drive(c, w, r, x, 14 + w.runs[r].initializers);
    var next := Apply(c, committed, Begin(q, w.runs[r].session, n));
    UndisturbedRunCommits(c, w, r, x, s);
    NextIsFresh(c, w, r, x, s, q, n, committed);
    NextCarriesOn(c, next, q, x.state, y, n);
    SuccessionIs(c, w, r, x, q, n, y);
  }

  lemma FreshIsThere(w: World, r: RunId)
    requires Fresh(w, r)
    ensures r in w.runs
  {
  }

  lemma SuccessionIs(c: Codec, w: World, r: RunId, x: Input, q: RunId, n: nat, y: Input)
    requires r in w.runs
    ensures Succession(c, w, r, x, q, n, y)
              == Drive(c, Apply(c, Drive(c, w, r, x, 14 + w.runs[r].initializers), Begin(q, w.runs[r].session, n)), q, y, 14 + n)
  {
    hide Drive, Apply;
  }

  lemma NextCarriesOn(c: Codec, next: World, q: RunId, s: BrowserState, y: Input, n: nat)
    requires Sound(c) && Smooth(y) && Fresh(next, q) && Finds(c, next, next.runs[q], s) && next.runs[q].initializers == n
    requires next.runs[q].config.persist && next.runs[q].config.captureFinal
    ensures CarriedOn(c, Drive(c, next, q, y, 14 + n), q, next.runs[q].session, s, y.state)
  {
    hide *;
    UndisturbedRunCommits(c, next, q, y, s);
    CommittedShows(c, next, Drive(c, next, q, y, 14 + n), q, y, s);
  }

  lemma NextIsFresh(
    c: Codec, w: World, r: RunId, x: Input, s: BrowserState, q: RunId, n: nat, committed: World)
    requires Fresh(w, r) && CommittedBy(c, w, committed, r, x, s)
    requires w.runs[r].config.persist && w.runs[r].config.captureFinal
    requires q !in w.runs && forall final :: Slot(w.runs[r].profile, q, final) !in w.files
    ensures var next := Apply(c, committed, Begin(q, w.runs[r].session, n));
            && Fresh(next, q) && Finds(c, next, next.runs[q], x.state)
            && next.runs[q].initializers == n && next.runs[q].session == w.runs[r].session
            && next.runs[q].config.persist && next.runs[q].config.captureFinal
  {
    var session := w.runs[r].session;
    var next := Apply(c, committed, Begin(q, session, n));
    assert next == committed.(runs := committed.runs[q := Loaded(committed, session, n)]);
  }

  lemma CommittedShows(c: Codec, w: World, w': World, q: RunId, y: Input, s: BrowserState)
    requires CommittedBy(c, w, w', q, y, s) && w.runs[q].config.persist && w.runs[q].config.captureFinal
    ensures CarriedOn(c, w', q, w.runs[q].session, s, y.state)
  {
  }
}
