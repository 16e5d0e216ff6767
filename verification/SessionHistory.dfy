/** The latest snapshots of a session over a history of runs: what the rows say
    (`SessionRepository.set_latest_artifacts`), against what the runs hand back in memory
    (`ManagedSessionContext._build_updated_session`). */
module SessionHistory {
  import opened Text
  import opened ManagedContext
  import opened Rows

  /** A run with what it was asked to do, the reference its initial write returned, what its
      exit's steps did, and what was recorded of it. */
  datatype Step = Step(job: Job, written: ArtifactRef, exit: ExitFaults, outcome: Outcome)

  function ConfigOf(s: Step): Config { s.job.session.config }

  /** The outcome is what entering and leaving left, and the run is recorded as succeeded; only
      such runs reach the transaction. */
  predicate Committed(s: Step) {
    var initial := InitialRef(ConfigOf(s), s.written);
    && ExitRecord(s.job, initial, None, s.exit).status.Succeeded?
    && s.outcome.result == ExitResult(s.job, initial, None, s.exit)
  }

  /** So it holds exactly the snapshots its configuration asks for. */
  lemma CommittedHolds(s: Step)
    requires Committed(s)
    ensures FromExit(s.outcome)
    ensures s.outcome.result.initial.Some? <==> ConfigOf(s).persist && ConfigOf(s).captureInitial
    ensures s.outcome.result.final.Some? <==> ConfigOf(s).persist && ConfigOf(s).captureFinal
  {
    var initial := InitialRef(ConfigOf(s), s.written);
    SucceededExactly(s.job, initial, None, s.exit);
    assert ExitSteps(ConfigOf(s), s.exit)[0].None?;
    ExitGivesIt(s.job, initial, None, s.exit, s.outcome);
    hide ExitRecord, Raised, FromExit;
  }

  /** The database after the runs of a history were recorded one after the other. */
  function RecordAll(db: Db, history: seq<Step>): Option<Db> {
    if history == [] then Some(db)
    else
      var before := RecordAll(db, history[..|history| - 1]);
      if before.None? then None else Recorded(before.value, history[|history| - 1].outcome)
  }

  /** The fold of `updated_session` over the same runs. */
  function MemoryAfter(session: Session, history: seq<Step>): Session {
    if history == [] then session
    else
      var result := history[|history| - 1].outcome.result;
      UpdatedSession(MemoryAfter(session, history[..|history| - 1]), result.initial, result.final, true)
  }

  predicate AllOf(history: seq<Step>, session: Id) {
    forall i :: 0 <= i < |history| ==> history[i].outcome.session == session && Committed(history[i])
  }

  /** The stored row always names the last recorded run's snapshots, None included. */
  lemma {:induction false} StoredIsLast(db: Db, history: seq<Step>, session: Id)
    requires RowInv(db) && AllOf(history, session) && RecordAll(db, history).Some? && session in db.sessions
    ensures var after := RecordAll(db, history).value;
            && RowInv(after) && session in after.sessions
            && (history == [] ==> after == db)
            && (history != [] ==>
                  var last := history[|history| - 1].outcome.result;
                  after.sessions[session].latestInitial == IdOf(last.initial)
                  && after.sessions[session].latestFinal == IdOf(last.final))
  {
    hide RowInv, Recorded, Committed;
    if history != [] {
      var before := RecordAll(db, history[..|history| - 1]).value;
      StoredIsLast(db, history[..|history| - 1], session);
      RecordedExactly(before, history[|history| - 1].outcome);
      RecordingKeepsRowInv(before, history[|history| - 1].outcome);
    }
  }

  /** The fold keeps the snapshot of the last run that wrote one. */
  ghost predicate KeepsLastWritten(history: seq<Step>, before: Option<ArtifactRef>, after: Option<ArtifactRef>, final: bool) {
    || (NoneFrom(history, 0, final) && after == before)
    || exists k :: WrittenLastBy(history, k, after, final)
  }

  /** No run from the `k`-th on wrote this snapshot. */
  ghost predicate NoneFrom(history: seq<Step>, k: nat, final: bool) {
    forall i :: k <= i < |history| ==> Ref(history[i], final).None?
  }

  ghost predicate WrittenLastBy(history: seq<Step>, k: int, ref: Option<ArtifactRef>, final: bool) {
    0 <= k < |history| && ref.Some? && Ref(history[k], final) == ref && NoneFrom(history, k + 1, final)
  }

  function Ref(s: Step, final: bool): Option<ArtifactRef> {
    if final then s.outcome.result.final else s.outcome.result.initial
  }

  lemma {:induction false} MemoryKeepsLastWritten(session: Session, history: seq<Step>)
    ensures KeepsLastWritten(history, session.latestFinal, MemoryAfter(session, history).latestFinal, true)
    ensures KeepsLastWritten(history, session.latestInitial, MemoryAfter(session, history).latestInitial, false)
  {
    if history != [] {
      MemoryKeepsLastWritten(session, history[..|history| - 1]);
      var before := MemoryAfter(session, history[..|history| - 1]);
      KeepsOneMore(history, session.latestFinal, before.latestFinal, true);
      KeepsOneMore(history, session.latestInitial, before.latestInitial, false);
    }
  }

  lemma KeepsOneMore(history: seq<Step>, start: Option<ArtifactRef>, before: Option<ArtifactRef>, final: bool)
    requires history != [] && KeepsLastWritten(history[..|history| - 1], start, before, final)
    ensures var last := Ref(history[|history| - 1], final);
            KeepsLastWritten(history, start, if last.Some? then last else before, final)
  {
    var n := |history| - 1;
    assert forall i :: 0 <= i < n ==> history[..n][i] == history[i];
    if Ref(history[n], final).Some? {
      assert WrittenLastBy(history, n, Ref(history[n], final), final);
    } else if k :| WrittenLastBy(history[..n], k, before, final) {
      assert WrittenLastBy(history, k, before, final);
    }
  }

  /** The last run writes this snapshot, or there never was one: nothing before the history
      and none of its runs. */
  predicate NothingToForget(history: seq<Step>, before: Option<ArtifactRef>, final: bool) {
    || history == []
    || Ref(history[|history| - 1], final).Some?
    || (before.None? && forall i :: 0 <= i < |history| ==> Ref(history[i], final).None?)
  }

  /** A row and a session record that agree on the latest snapshots. */
  predicate Agree(row: SessionRow, session: Session) {
    row.latestInitial == IdOf(session.latestInitial) && row.latestFinal == IdOf(session.latestFinal)
  }

  lemma KeptAgreesExactly(history: seq<Step>, start: Option<ArtifactRef>, after: Option<ArtifactRef>, final: bool)
    requires history != [] && KeepsLastWritten(history, start, after, final)
    ensures IdOf(Ref(history[|history| - 1], final)) == IdOf(after) <==> NothingToForget(history, start, final)
  {
    var n := |history| - 1;
    if k :| WrittenLastBy(history, k, after, final) {
      assert k < n ==> Ref(history[n], final).None?;
    }
  }

  /** Rows and memory agree after a history exactly when neither snapshot was there to be
      forgotten: `set_latest_artifacts` writes None where `_build_updated_session` keeps the
      old reference. */
  lemma AgreeExactly(db: Db, session: Session, id: Id, history: seq<Step>)
    requires RowInv(db) && id in db.sessions && Agree(db.sessions[id], session)
    requires AllOf(history, id) && RecordAll(db, history).Some?
    ensures id in RecordAll(db, history).value.sessions
    ensures Agree(RecordAll(db, history).value.sessions[id], MemoryAfter(session, history)) <==>
              NothingToForget(history, session.latestInitial, false) && NothingToForget(history, session.latestFinal, true)
  {
    StoredIsLast(db, history, id);
    MemoryKeepsLastWritten(session, history);
    hide RowInv, RecordAll, KeepsLastWritten, MemoryAfter;
    if history == [] {
      MemoryOfNothing(session);
    } else {
      KeptAgreesExactly(history, session.latestFinal, MemoryAfter(session, history).latestFinal, true);
      KeptAgreesExactly(history, session.latestInitial, MemoryAfter(session, history).latestInitial, false);
    }
  }

  lemma MemoryOfNothing(session: Session)
    ensures MemoryAfter(session, []) == session
  {
  }

  /** A session created without snapshots and run under one unchanged configuration: rows and
      memory agree, and the stored latest final snapshot is that of the last committed run. */
  lemma FreshSessionAgrees(db: Db, session: Session, id: Id, history: seq<Step>)
    requires RowInv(db) && id in db.sessions && Agree(db.sessions[id], session)
    requires session.latestInitial.None? && session.latestFinal.None?
    requires AllOf(history, id) && RecordAll(db, history).Some?
    requires forall i :: 0 <= i < |history| ==> ConfigOf(history[i]) == session.config
    ensures var after := RecordAll(db, history).value;
            && id in after.sessions && Agree(after.sessions[id], MemoryAfter(session, history))
            && (history != [] ==> after.sessions[id].latestFinal == IdOf(history[|history| - 1].outcome.result.final))
  {
    StoredIsLast(db, history, id);
    AgreeExactly(db, session, id, history);
    hide RowInv, RecordAll, MemoryAfter, Committed;
    forall i | 0 <= i < |history|
      ensures Ref(history[i], true).Some? <==> session.config.persist && session.config.captureFinal
      ensures Ref(history[i], false).Some? <==> session.config.persist && session.config.captureInitial
    {
      CommittedHolds(history[i]);
    }
  }

  /** The start condition matters: a session that already has a final snapshot and then runs
      with capture off loses it in its row and keeps it in memory. */
  lemma CaptureOffForgets(db: Db, session: Session, id: Id, step: Step)
    requires RowInv(db) && id in db.sessions && Agree(db.sessions[id], session) && session.latestFinal.Some?
    requires AllOf([step], id) && RecordAll(db, [step]).Some? && !(ConfigOf(step).persist && ConfigOf(step).captureFinal)
    ensures id in RecordAll(db, [step]).value.sessions
    ensures RecordAll(db, [step]).value.sessions[id].latestFinal.None?
    ensures MemoryAfter(session, [step]).latestFinal == session.latestFinal
  {
    StoredIsLast(db, [step], id);
    MemoryKeepsLastWritten(session, [step]);
    hide RowInv, RecordAll, MemoryAfter, Committed;
    assert Committed([step][0]);
    CommittedHolds(step);
  }

  /** A database with one profile and one session that has a final snapshot, and a run of that
      session that persists its state but captures nothing. */
  function SnapshotDb(): Db {
    Db(map["p" := "work"], map["s" := SessionRow("shop", "p", None, Some("old"))], map[], map[],
       map["old" := ArtifactRow(ArtifactRef("old"), Some("s"), None, None)], [])
  }

  function SnapshotSession(): Session {
    Session(0, 0, Config(true, false, false, false, false), None, Some(ArtifactRef("old")))
  }

  function CaptureOffRun(): Step {
    var job := Job(SnapshotSession(), 0, 0, true, true, map[], 30_000);
    var smooth := ExitFaults(Wrote(ArtifactRef("new")), None, None, Unlock(None, false), None);
    Step(job, ArtifactRef("first"), smooth, Outcome("s", "r", "c", ExitResult(job, None, None, smooth), []))
  }

  /** The case above, at one input. */
  lemma CaptureOffForgetsHere()
    ensures RowInv(SnapshotDb()) && Agree(SnapshotDb().sessions["s"], SnapshotSession())
    ensures RecordAll(SnapshotDb(), [CaptureOffRun()]).Some?
    ensures var after := RecordAll(SnapshotDb(), [CaptureOffRun()]).value;
            "s" in after.sessions && after.sessions["s"].latestFinal.None?
    ensures MemoryAfter(SnapshotSession(), [CaptureOffRun()]).latestFinal == Some(ArtifactRef("old"))
  {
    SnapshotDbIsValid();
    CaptureOffRunCommits();
    CaptureOffForgets(SnapshotDb(), SnapshotSession(), "s", CaptureOffRun());
  }

  lemma SnapshotDbIsValid()
    ensures RowInv(SnapshotDb()) && "s" in SnapshotDb().sessions
    ensures Agree(SnapshotDb().sessions["s"], SnapshotSession())
  {
    assert "work"[0] != ' ' && "shop"[0] != ' ';
  }

  lemma CaptureOffRunSucceeds()
    ensures Committed(CaptureOffRun()) && !ConfigOf(CaptureOffRun()).captureFinal && CaptureOffRun().outcome.session == "s"
  {
    var s := CaptureOffRun();
    var steps := ExitSteps(ConfigOf(s), s.exit);
    assert forall i :: 0 <= i < 4 ==> steps[i].None?;
    SucceededExactly(s.job, None, None, s.exit);
    hide ExitRecord, ExitSteps;
  }

  lemma CaptureOffRunIsRecordable()
    ensures Recordable(SnapshotDb(), CaptureOffRun().outcome)
  {
    hide ExitRecord;
    assert Entries(CaptureOffRun().outcome) == [];
  }

  lemma CaptureOffRunCommits()
    ensures AllOf([CaptureOffRun()], "s") && !ConfigOf(CaptureOffRun()).captureFinal
    ensures RecordAll(SnapshotDb(), [CaptureOffRun()]).Some?
  {
    CaptureOffRunSucceeds();
    CaptureOffRunIsRecordable();
    hide CaptureOffRun, SnapshotDb, Committed, Recordable, RowInv, Recorded;
    SnapshotDbIsValid();
    RecordedExactly(SnapshotDb(), CaptureOffRun().outcome);
    assert [CaptureOffRun()][..0] == [];
    assert RecordAll(SnapshotDb(), []) == Some(SnapshotDb());
  }
}
