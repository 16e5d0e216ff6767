/** The metadata rows, the constraints the database checks on them, and the single
    transaction that records a run (persistence/models.py, persistence/repositories.py,
    `_persist_run` in ops/runs.py). */
module Rows {
  import opened Text
  import opened ManagedContext

  type Id = string

  datatype SessionRow = SessionRow(name: string, profile: Id, latestInitial: Option<Id>, latestFinal: Option<Id>)

  datatype RunRow = RunRow(session: Id, record: RunRecord)

  datatype ContextRow = ContextRow(run: Id, session: Id, initial: Option<Id>, final: Option<Id>)

  datatype ArtifactRow = ArtifactRow(ref: ArtifactRef, session: Option<Id>, run: Option<Id>, order: Option<int>)

  datatype HealthRow = HealthRow(session: Id, lastSuccess: Option<Id>, lastFailure: Option<Id>)

  datatype Db = Db(
    profiles: map<Id, string>, sessions: map<Id, SessionRow>, runs: map<Id, RunRow>,
    contexts: map<Id, ContextRow>, artifacts: map<Id, ArtifactRow>, health: seq<HealthRow>)

  // ------------------------------------------------------------------
  // Constraints
  // ------------------------------------------------------------------

  /** `length(trim(name)) > 0`: SQLite trims spaces only. */
  predicate NonEmptyName(name: string) { exists i :: 0 <= i < |name| && name[i] != ' ' }

  predicate Refers(id: Option<Id>, keys: set<Id>) { id.Some? ==> id.value in keys }

  predicate SessionFits(db: Db, row: SessionRow) {
    && NonEmptyName(row.name) && row.profile in db.profiles
    && Refers(row.latestInitial, db.artifacts.Keys) && Refers(row.latestFinal, db.artifacts.Keys)
  }

  predicate RunFits(db: Db, row: RunRow) { row.session in db.sessions }

  predicate ContextFits(db: Db, row: ContextRow) {
    && row.run in db.runs && row.session in db.sessions
    && Refers(row.initial, db.artifacts.Keys) && Refers(row.final, db.artifacts.Keys)
  }

  predicate ArtifactFits(db: Db, row: ArtifactRow) {
    && Refers(row.session, db.sessions.Keys) && Refers(row.run, db.runs.Keys)
    && (row.run.Some? ==> row.order.Some?)
  }

  /** Rows that the unique constraint on (run_id, run_order) does not allow together. */
  predicate Clash(a: ArtifactRow, b: ArtifactRow) { a.run.Some? && a.run == b.run && a.order == b.order }

  predicate HealthFits(db: Db, row: HealthRow) {
    row.session in db.sessions && Refers(row.lastSuccess, db.runs.Keys) && Refers(row.lastFailure, db.runs.Keys)
  }

  /** Every constraint of every table. */
  ghost predicate RowInv(db: Db) {
    && (forall p :: p in db.profiles ==> NonEmptyName(db.profiles[p]))
    && (forall s :: s in db.sessions ==> SessionFits(db, db.sessions[s]))
    && (forall r :: r in db.runs ==> RunFits(db, db.runs[r]))
    && (forall c :: c in db.contexts ==> ContextFits(db, db.contexts[c]))
    && (forall a :: a in db.artifacts ==> ArtifactFits(db, db.artifacts[a]) && db.artifacts[a].ref.id == a)
    && (forall a, b :: a in db.artifacts && b in db.artifacts && a != b ==> !Clash(db.artifacts[a], db.artifacts[b]))
    && (forall h :: 0 <= h < |db.health| ==> HealthFits(db, db.health[h]))
  }

  // The constraints as the tables declare them: checks, primary and foreign keys, and the
  // uniqueness of an artifact's order within its run.

  ghost predicate SessionsHold(db: Db) {
    forall s :: s in db.sessions ==>
      var row := db.sessions[s];
      && (exists i :: 0 <= i < |row.name| && row.name[i] != ' ') && row.profile in db.profiles
      && (row.latestInitial.Some? ==> row.latestInitial.value in db.artifacts)
      && (row.latestFinal.Some? ==> row.latestFinal.value in db.artifacts)
  }

  ghost predicate RunsHold(db: Db) {
    && (forall p :: p in db.profiles ==> exists i :: 0 <= i < |db.profiles[p]| && db.profiles[p][i] != ' ')
    && (forall r :: r in db.runs ==> db.runs[r].session in db.sessions)
    && (forall h :: 0 <= h < |db.health| ==>
          var row := db.health[h];
          && row.session in db.sessions && (row.lastSuccess.Some? ==> row.lastSuccess.value in db.runs)
          && (row.lastFailure.Some? ==> row.lastFailure.value in db.runs))
  }

  ghost predicate ContextsHold(db: Db) {
    forall c :: c in db.contexts ==>
      var row := db.contexts[c];
      && row.run in db.runs && row.session in db.sessions
      && (row.initial.Some? ==> row.initial.value in db.artifacts)
      && (row.final.Some? ==> row.final.value in db.artifacts)
  }

  ghost predicate ArtifactsHold(db: Db) {
    && (forall a :: a in db.artifacts ==>
          var row := db.artifacts[a];
          && row.ref.id == a && (row.session.Some? ==> row.session.value in db.sessions)
          && (row.run.Some? ==> row.run.value in db.runs && row.order.Some?))
    && (forall a, b :: a in db.artifacts && b in db.artifacts && a != b ==>
          var x, y := db.artifacts[a], db.artifacts[b];
          x.run.Some? && x.run == y.run ==> x.order != y.order)
  }

  ghost predicate Constraints(db: Db) { SessionsHold(db) && RunsHold(db) && ContextsHold(db) && ArtifactsHold(db) }

  /** What the flush checks of single rows, taken over all tables, amounts to those. */
  lemma RowInvExactly(db: Db)
    ensures RowInv(db) <==> Constraints(db)
  {
    SessionsExactly(db);
    RunsExactly(db);
    ContextsExactly(db);
    ArtifactsExactly(db);
    hide NonEmptyName, RunFits, HealthFits, SessionFits, ContextFits, ArtifactFits, Clash;
    hide SessionsHold, RunsHold, ContextsHold, ArtifactsHold;
  }

  lemma SessionsExactly(db: Db)
    ensures SessionsHold(db) <==> forall s :: s in db.sessions ==> SessionFits(db, db.sessions[s])
  {
  }

  lemma RunsExactly(db: Db)
    ensures RunsHold(db) <==>
              && (forall p :: p in db.profiles ==> NonEmptyName(db.profiles[p]))
              && (forall r :: r in db.runs ==> RunFits(db, db.runs[r]))
              && (forall h :: 0 <= h < |db.health| ==> HealthFits(db, db.health[h]))
  {
  }

  lemma ContextsExactly(db: Db)
    ensures ContextsHold(db) <==> forall c :: c in db.contexts ==> ContextFits(db, db.contexts[c])
  {
  }

  lemma ArtifactsExactly(db: Db)
    ensures ArtifactsHold(db) <==>
              && (forall a :: a in db.artifacts ==> ArtifactFits(db, db.artifacts[a]) && db.artifacts[a].ref.id == a)
              && (forall a, b :: a in db.artifacts && b in db.artifacts && a != b ==> !Clash(db.artifacts[a], db.artifacts[b]))
  {
  }

  // ------------------------------------------------------------------
  // Inserts and updates, with what the flush checks
  // ------------------------------------------------------------------

  function InsertRun(db: Db, id: Id, row: RunRow): Option<Db> {
    if id in db.runs || !RunFits(db, row) then None else Some(db.(runs := db.runs[id := row]))
  }

  function InsertArtifact(db: Db, row: ArtifactRow): Option<Db> {
    if || row.ref.id in db.artifacts || !ArtifactFits(db, row)
       || (exists a :: a in db.artifacts && Clash(db.artifacts[a], row))
    then None else Some(db.(artifacts := db.artifacts[row.ref.id := row]))
  }

  function InsertContext(db: Db, id: Id, row: ContextRow): Option<Db> {
    if id in db.contexts || !ContextFits(db, row) then None else Some(db.(contexts := db.contexts[id := row]))
  }

  /** `set_latest_artifacts` writes what it is given, None included. */
  function SetLatest(db: Db, session: Id, initial: Option<Id>, final: Option<Id>): Option<Db> {
    if session !in db.sessions then None
    else
      var row := db.sessions[session].(latestInitial := initial, latestFinal := final);
      if !SessionFits(db, row) then None else Some(db.(sessions := db.sessions[session := row]))
  }

  /** Checking only the new row is enough, and not too much: an insert is accepted exactly when
      the key is free and all constraints hold of the whole database afterwards. */
  lemma InsertArtifactExactly(db: Db, row: ArtifactRow)
    requires RowInv(db)
    ensures InsertArtifact(db, row).Some? <==>
              row.ref.id !in db.artifacts && RowInv(db.(artifacts := db.artifacts[row.ref.id := row]))
  {
    var after := db.(artifacts := db.artifacts[row.ref.id := row]);
    if row.ref.id !in db.artifacts {
      OldRowsStay(db, after);
      assert after.artifacts[row.ref.id] == row && (ArtifactFits(after, row) <==> ArtifactFits(db, row));
      hide SessionFits, ContextFits, RunFits, HealthFits, ArtifactFits, NonEmptyName;
      assert forall a :: a in db.artifacts ==> a in after.artifacts && after.artifacts[a] == db.artifacts[a];
    }
  }

  /** Old rows go on satisfying their own constraints when no key disappears. */
  lemma OldRowsStay(db: Db, after: Db)
    requires RowInv(db) && db.profiles.Keys <= after.profiles.Keys && db.sessions.Keys <= after.sessions.Keys
    requires db.runs.Keys <= after.runs.Keys && db.artifacts.Keys <= after.artifacts.Keys
    ensures forall s :: s in db.sessions ==> SessionFits(after, db.sessions[s])
    ensures forall r :: r in db.runs ==> RunFits(after, db.runs[r])
    ensures forall c :: c in db.contexts ==> ContextFits(after, db.contexts[c])
    ensures forall a :: a in db.artifacts ==> ArtifactFits(after, db.artifacts[a])
    ensures forall h :: 0 <= h < |db.health| ==> HealthFits(after, db.health[h])
  {
    hide NonEmptyName;
  }

  lemma InsertRunExactly(db: Db, id: Id, row: RunRow)
    requires RowInv(db)
    ensures InsertRun(db, id, row).Some? <==> id !in db.runs && RowInv(db.(runs := db.runs[id := row]))
  {
    var after := db.(runs := db.runs[id := row]);
    OldRowsStay(db, after);
    assert after.runs[id] == row && (RunFits(after, row) <==> RunFits(db, row));
    hide SessionFits, ContextFits, RunFits, HealthFits, ArtifactFits, NonEmptyName, Clash;
  }

  lemma InsertContextExactly(db: Db, id: Id, row: ContextRow)
    requires RowInv(db)
    ensures InsertContext(db, id, row).Some? <==> id !in db.contexts && RowInv(db.(contexts := db.contexts[id := row]))
  {
    var after := db.(contexts := db.contexts[id := row]);
    OldRowsStay(db, after);
    assert after.contexts[id] == row && (ContextFits(after, row) <==> ContextFits(db, row));
    hide SessionFits, ContextFits, RunFits, HealthFits, ArtifactFits, NonEmptyName, Clash;
  }

  lemma SetLatestExactly(db: Db, session: Id, initial: Option<Id>, final: Option<Id>)
    requires RowInv(db) && session in db.sessions
    ensures var row := db.sessions[session].(latestInitial := initial, latestFinal := final);
            SetLatest(db, session, initial, final).Some? <==> RowInv(db.(sessions := db.sessions[session := row]))
  {
    var row := db.sessions[session].(latestInitial := initial, latestFinal := final);
    var after := db.(sessions := db.sessions[session := row]);
    OldRowsStay(db, after);
    assert after.sessions[session] == row && (SessionFits(after, row) <==> SessionFits(db, row));
    hide SessionFits, ContextFits, RunFits, HealthFits, ArtifactFits, NonEmptyName, Clash;
  }

  // ------------------------------------------------------------------
  // Recording a run
  // ------------------------------------------------------------------

  const ORDER_INITIAL := 0
  const ORDER_FINAL := 100

  /** What `_persist_run` is given. */
  datatype Outcome = Outcome(
    session: Id, run: Id, contextId: Id, result: LifecycleResult, diagnostics: seq<(ArtifactRef, int)>)

  function IdOf(ref: Option<ArtifactRef>): Option<Id> {
    if ref.Some? then Some(ref.value.id) else None
  }

  function At(ref: Option<ArtifactRef>, order: int): seq<(ArtifactRef, int)> {
    if ref.Some? then [(ref.value, order)] else []
  }

  /** The artifact rows of a run in the order they are inserted. */
  function Entries(o: Outcome): seq<(ArtifactRef, int)> {
    At(o.result.initial, ORDER_INITIAL) + o.diagnostics + At(o.result.final, ORDER_FINAL)
  }

  function RowOf(o: Outcome, entry: (ArtifactRef, int)): ArtifactRow {
    ArtifactRow(entry.0, Some(o.session), Some(o.run), Some(entry.1))
  }

  function InsertEntries(db: Db, o: Outcome, entries: seq<(ArtifactRef, int)>): Option<Db> {
    if entries == [] then Some(db)
    else
      var before := InsertEntries(db, o, entries[..|entries| - 1]);
      if before.None? then None else InsertArtifact(before.value, RowOf(o, entries[|entries| - 1]))
  }

  function ContextOf(o: Outcome): Option<ContextRow> {
    if o.result.context.None? then None
    else Some(ContextRow(o.run, o.session, IdOf(o.result.context.value.initial), IdOf(o.result.context.value.final)))
  }

  /** The database after a transaction nothing goes wrong in, or None when a constraint is
      violated on the way. */
  function Recorded(db: Db, o: Outcome): Option<Db> {
    var ran := InsertRun(db, o.run, RunRow(o.session, o.result.run));
    if ran.None? then None else
    var stored := InsertEntries(ran.value, o, Entries(o));
    if stored.None? then None else
    Closed(stored.value, o)
  }

  /** The last two steps: the context row and the session's latest references. */
  function Closed(stored: Db, o: Outcome): Option<Db> {
    var withContext :=
      if ContextOf(o).None? then Some(stored) else InsertContext(stored, o.contextId, ContextOf(o).value);
    if withContext.None? then None
    else SetLatest(withContext.value, o.session, IdOf(o.result.initial), IdOf(o.result.final))
  }

  class Database {
    var rows: Db

    constructor (rows: Db)
      ensures this.rows == rows
    {
      this.rows := rows;
    }

    /** One flush: it takes effect when neither the connection nor a constraint fails. */
    method Flush(after: Option<Db>, broken: bool) returns (ok: bool)
      modifies this
      ensures ok == (!broken && after.Some?)
      ensures rows == if ok then after.value else old(rows)
    {
      ok := !broken && after.Some?;
      if ok { rows := after.value; }
    }

    method AddEntries(o: Outcome, entries: seq<(ArtifactRef, int)>, broken: set<int>, step: int) returns (ok: bool)
      modifies this
      ensures ok ==> InsertEntries(old(rows), o, entries) == Some(rows)
      ensures ok <==> InsertEntries(old(rows), o, entries).Some? && forall k :: step <= k < step + |entries| ==> k !in broken
    {
      ghost var before := rows;
      for i := 0 to |entries|
        invariant InsertEntries(before, o, entries[..i]) == Some(rows)
        invariant forall k :: step <= k < step + i ==> k !in broken
      {
        assert entries[..i + 1][..i] == entries[..i];
        ok := Flush(InsertArtifact(rows, RowOf(o, entries[i])), step + i in broken);
        if !ok {
          if step + i !in broken { StaysRefused(before, o, entries, i + 1); }
          return;
        }
      }
      assert entries[..|entries|] == entries;
      ok := true;
    }

    /** `_persist_run`: all or nothing.  `broken` is the set of steps at which the connection
        fails; step 0 inserts the run, the next steps the artifacts, the last three the
        context, the session's latest references and the commit. */
    method PersistRun(o: Outcome, broken: set<int>) returns (ok: bool)
      modifies this
      ensures ok ==> Recorded(old(rows), o) == Some(rows)
      ensures ok && RowInv(old(rows)) ==> Shows(old(rows), rows, o) && Constraints(rows)
      ensures !ok ==> rows == old(rows)
      ensures ok <==> Recorded(old(rows), o).Some? && forall k :: k in broken ==> !StepOf(o, k)
    {
      hide RowInv, Shows, Constraints;
      var saved := rows;
      var n := |Entries(o)|;
      ok := Flush(InsertRun(rows, o.run, RunRow(o.session, o.result.run)), 0 in broken);
      if ok { ok := AddEntries(o, Entries(o), broken, 1); }
      if ok && ContextOf(o).Some? {
        ok := Flush(InsertContext(rows, o.contextId, ContextOf(o).value), n + 1 in broken);
      }
      if ok { ok := Flush(SetLatest(rows, o.session, IdOf(o.result.initial), IdOf(o.result.final)), n + 2 in broken); }
      if ok { ok := n + 3 !in broken; }
      if !ok { rows := saved; }
      RecordedHolds(saved, o);
    }
  }

  /** The steps the transaction takes. */
  predicate StepOf(o: Outcome, k: int) {
    0 <= k <= |Entries(o)| + 3 && (k == |Entries(o)| + 1 ==> ContextOf(o).Some?)
  }

  lemma {:induction false} StaysRefused(db: Db, o: Outcome, entries: seq<(ArtifactRef, int)>, n: nat)
    requires n <= |entries| && InsertEntries(db, o, entries[..n]).None?
    ensures InsertEntries(db, o, entries).None?
    decreases |entries|
  {
    if n < |entries| {
      assert entries[..|entries| - 1][..n] == entries[..n];
      StaysRefused(db, o, entries[..|entries| - 1], n);
    } else {
      assert entries[..n] == entries;
    }
  }

  // ------------------------------------------------------------------
  // The transaction keeps every constraint
  // ------------------------------------------------------------------

  lemma {:induction false} EntriesKeepRowInv(db: Db, o: Outcome, entries: seq<(ArtifactRef, int)>)
    requires RowInv(db) && InsertEntries(db, o, entries).Some?
    ensures RowInv(InsertEntries(db, o, entries).value)
  {
    if entries != [] {
      EntriesKeepRowInv(db, o, entries[..|entries| - 1]);
      var before := InsertEntries(db, o, entries[..|entries| - 1]).value;
      hide RowInv;
      InsertArtifactExactly(before, RowOf(o, entries[|entries| - 1]));
    }
  }

  /** Atomicity and integrity together: whatever fails, the database satisfies every
      constraint after the transaction if it did before. */
  lemma RecordingKeepsRowInv(db: Db, o: Outcome)
    requires RowInv(db) && Recorded(db, o).Some?
    ensures RowInv(Recorded(db, o).value)
  {
    hide RowInv;
    InsertRunExactly(db, o.run, RunRow(o.session, o.result.run));
    var ran := InsertRun(db, o.run, RunRow(o.session, o.result.run)).value;
    EntriesKeepRowInv(ran, o, Entries(o));
    var stored := InsertEntries(ran, o, Entries(o)).value;
    hide InsertEntries, Entries;
    if ContextOf(o).Some? { InsertContextExactly(stored, o.contextId, ContextOf(o).value); }
    var withContext := if ContextOf(o).None? then stored else InsertContext(stored, o.contextId, ContextOf(o).value).value;
    SetLatestExactly(withContext, o.session, IdOf(o.result.initial), IdOf(o.result.final));
  }

  // ------------------------------------------------------------------
  // Exactly when no constraint is violated
  // ------------------------------------------------------------------

  ghost predicate EntriesFit(db: Db, entries: seq<(ArtifactRef, int)>) {
    && (forall i :: 0 <= i < |entries| ==> entries[i].0.id !in db.artifacts)
    && (forall i, j :: 0 <= i < j < |entries| ==> entries[i].0.id != entries[j].0.id && entries[i].1 != entries[j].1)
  }

  function Ids(entries: seq<(ArtifactRef, int)>): set<Id> { set i | 0 <= i < |entries| :: entries[i].0.id }

  /** `after` is `before` with the rows of `entries` added. */
  ghost predicate Added(before: Db, after: Db, o: Outcome, entries: seq<(ArtifactRef, int)>) {
    && after == before.(artifacts := after.artifacts)
    && (forall a :: a in after.artifacts <==> a in before.artifacts || exists i :: 0 <= i < |entries| && entries[i].0.id == a)
    && (forall a :: a in before.artifacts ==> after.artifacts[a] == before.artifacts[a])
    && (forall i :: 0 <= i < |entries| ==> after.artifacts[entries[i].0.id] == RowOf(o, entries[i]))
  }

  ghost predicate NewRun(db: Db, o: Outcome) {
    && o.run in db.runs && o.session in db.sessions
    && forall a :: a in db.artifacts ==> db.artifacts[a].run != Some(o.run)
  }

  lemma {:induction false} InsertEntriesExactly(db: Db, o: Outcome, entries: seq<(ArtifactRef, int)>)
    requires NewRun(db, o)
    ensures InsertEntries(db, o, entries).Some? <==> EntriesFit(db, entries)
    ensures InsertEntries(db, o, entries).Some? ==> Added(db, InsertEntries(db, o, entries).value, o, entries)
  {
    if entries != [] {
      var n := |entries| - 1;
      InsertEntriesExactly(db, o, entries[..n]);
      assert forall i :: 0 <= i < n ==> entries[..n][i] == entries[i];
      if InsertEntries(db, o, entries[..n]).Some? {
        InsertOneExactly(db, InsertEntries(db, o, entries[..n]).value, o, entries);
      }
    }
  }

  lemma InsertOneExactly(db: Db, before: Db, o: Outcome, entries: seq<(ArtifactRef, int)>)
    requires NewRun(db, o) && entries != []
    requires EntriesFit(db, entries[..|entries| - 1]) && Added(db, before, o, entries[..|entries| - 1])
    ensures var last := entries[|entries| - 1];
            (InsertArtifact(before, RowOf(o, last)).Some? <==> EntriesFit(db, entries))
            && (InsertArtifact(before, RowOf(o, last)).Some? ==>
                  Added(db, InsertArtifact(before, RowOf(o, last)).value, o, entries))
  {
    var n := |entries| - 1;
    var row := RowOf(o, entries[n]);
    assert forall i :: 0 <= i < n ==> entries[..n][i] == entries[i];
    assert ArtifactFits(before, row);
    if EntriesFit(db, entries) {
      NoClash(db, before, o, entries);
    } else {
      ClashFound(db, before, o, entries);
    }
    if InsertArtifact(before, row).Some? { AddedOne(db, before, o, entries); }
  }

  lemma NoClash(db: Db, before: Db, o: Outcome, entries: seq<(ArtifactRef, int)>)
    requires NewRun(db, o) && entries != [] && EntriesFit(db, entries) && Added(db, before, o, entries[..|entries| - 1])
    ensures var row := RowOf(o, entries[|entries| - 1]);
            row.ref.id !in before.artifacts && !exists a :: a in before.artifacts && Clash(before.artifacts[a], row)
  {
    var n := |entries| - 1;
    assert forall i :: 0 <= i < n ==> entries[..n][i] == entries[i];
    forall a | a in before.artifacts ensures !Clash(before.artifacts[a], RowOf(o, entries[n])) {
      if a !in db.artifacts {
        var i :| 0 <= i < n && entries[..n][i].0.id == a;
        assert before.artifacts[a] == RowOf(o, entries[i]) && entries[i].1 != entries[n].1;
      }
    }
  }

  lemma ClashFound(db: Db, before: Db, o: Outcome, entries: seq<(ArtifactRef, int)>)
    requires entries != [] && !EntriesFit(db, entries)
    requires EntriesFit(db, entries[..|entries| - 1]) && Added(db, before, o, entries[..|entries| - 1])
    ensures var row := RowOf(o, entries[|entries| - 1]);
            row.ref.id in before.artifacts || exists a :: a in before.artifacts && Clash(before.artifacts[a], row)
  {
    var n := |entries| - 1;
    assert forall i :: 0 <= i < n ==> entries[..n][i] == entries[i];
    var i :| 0 <= i <= n && (entries[i].0.id in db.artifacts
                             || exists j :: i < j <= n && (entries[i].0.id == entries[j].0.id || entries[i].1 == entries[j].1));
    if entries[n].0.id !in db.artifacts {
      assert i < n;
      assert entries[..n][i].0.id in before.artifacts;
      assert before.artifacts[entries[..n][i].0.id] == RowOf(o, entries[i]);
    }
  }

  lemma AddedOne(db: Db, before: Db, o: Outcome, entries: seq<(ArtifactRef, int)>)
    requires entries != [] && Added(db, before, o, entries[..|entries| - 1])
    requires entries[|entries| - 1].0.id !in before.artifacts
    ensures var row := RowOf(o, entries[|entries| - 1]);
            Added(db, before.(artifacts := before.artifacts[row.ref.id := row]), o, entries)
  {
    var n := |entries| - 1;
    var row := RowOf(o, entries[n]);
    var after := before.(artifacts := before.artifacts[row.ref.id := row]);
    assert forall i :: 0 <= i < n ==> entries[..n][i] == entries[i];
    forall i | 0 <= i < n ensures after.artifacts[entries[i].0.id] == RowOf(o, entries[i]) {
      assert entries[..n][i].0.id in before.artifacts;
    }
    forall a ensures a in after.artifacts <==> a in db.artifacts || exists i :: 0 <= i < |entries| && entries[i].0.id == a {
      if a in after.artifacts && a !in db.artifacts {
        if a != row.ref.id {
          var i :| 0 <= i < n && entries[..n][i].0.id == a;
          assert entries[i].0.id == a;
        } else { assert entries[n].0.id == a; }
      }
    }
  }

  /** What a transaction needs: an existing session, an unused run id and context id, artifact
      ids and orders that repeat neither each other nor (for ids) any stored row, and a
      context that names stored artifacts or those of the run itself. */
  ghost predicate Recordable(db: Db, o: Outcome) {
    && o.session in db.sessions && o.run !in db.runs && EntriesFit(db, Entries(o))
    && (ContextOf(o).Some? ==> ContextAllowed(db, o))
  }

  ghost predicate ContextAllowed(db: Db, o: Outcome)
    requires ContextOf(o).Some?
  {
    && o.contextId !in db.contexts
    && Refers(ContextOf(o).value.initial, db.artifacts.Keys + Ids(Entries(o)))
    && Refers(ContextOf(o).value.final, db.artifacts.Keys + Ids(Entries(o)))
  }

  /** What the database holds afterwards. */
  ghost predicate RecordedAs(db: Db, after: Db, o: Outcome) {
    && after.runs == db.runs[o.run := RunRow(o.session, o.result.run)]
    && Added(db, db.(artifacts := after.artifacts), o, Entries(o))
    && after.contexts == (if ContextOf(o).Some? then db.contexts[o.contextId := ContextOf(o).value] else db.contexts)
    && o.session in db.sessions
    && after.sessions == db.sessions[o.session := db.sessions[o.session].(
                           latestInitial := IdOf(o.result.initial), latestFinal := IdOf(o.result.final))]
    && after.profiles == db.profiles && after.health == db.health
  }

  lemma OwnRefsAreEntries(o: Outcome)
    ensures Refers(IdOf(o.result.initial), Ids(Entries(o))) && Refers(IdOf(o.result.final), Ids(Entries(o)))
  {
    var entries := Entries(o);
    if o.result.initial.Some? { assert entries[0] == (o.result.initial.value, ORDER_INITIAL); }
    if o.result.final.Some? { assert entries[|entries| - 1] == (o.result.final.value, ORDER_FINAL); }
  }

  lemma AddedKeys(before: Db, after: Db, o: Outcome, entries: seq<(ArtifactRef, int)>)
    requires Added(before, after, o, entries)
    ensures after.artifacts.Keys == before.artifacts.Keys + Ids(entries)
  {
  }

  /** Once the artifacts are stored, only the context row can still be refused. */
  lemma RestIsAccepted(db: Db, stored: Db, o: Outcome)
    requires o.session in db.sessions && SessionFits(db, db.sessions[o.session]) && o.run in stored.runs
    requires stored.sessions == db.sessions && stored.contexts == db.contexts && stored.profiles == db.profiles
    requires stored.artifacts.Keys == db.artifacts.Keys + Ids(Entries(o))
    ensures Closed(stored, o).Some? <==> (ContextOf(o).Some? ==> ContextAllowed(db, o))
    ensures Closed(stored, o).Some? ==>
              Closed(stored, o).value == stored.(
                contexts := if ContextOf(o).Some? then db.contexts[o.contextId := ContextOf(o).value] else db.contexts,
                sessions := db.sessions[o.session := db.sessions[o.session].(
                              latestInitial := IdOf(o.result.initial), latestFinal := IdOf(o.result.final))])
  {
    OwnRefsAreEntries(o);
    hide Entries, Ids, IdOf;
  }

  lemma RecordedIs(db: Db, o: Outcome)
    requires o.run !in db.runs && o.session in db.sessions
    ensures var ran := db.(runs := db.runs[o.run := RunRow(o.session, o.result.run)]);
            var stored := InsertEntries(ran, o, Entries(o));
            Recorded(db, o) == if stored.None? then None else Closed(stored.value, o)
  {
    hide InsertEntries, Entries, Closed;
  }

  lemma RecordedWhenNew(db: Db, o: Outcome)
    requires o.run !in db.runs && o.session in db.sessions && SessionFits(db, db.sessions[o.session])
    requires forall a :: a in db.artifacts ==> db.artifacts[a].run != Some(o.run)
    ensures Recorded(db, o).Some? <==> Recordable(db, o)
    ensures Recorded(db, o).Some? ==> RecordedAs(db, Recorded(db, o).value, o)
  {
    hide *;
    var ran := db.(runs := db.runs[o.run := RunRow(o.session, o.result.run)]);
    RecordedIs(db, o);
    RanFacts(db, ran, o);
    InsertEntriesExactly(ran, o, Entries(o));
    if EntriesFit(ran, Entries(o)) {
      var stored := InsertEntries(ran, o, Entries(o)).value;
      StoredFacts(db, ran, stored, o);
      AddedKeys(ran, stored, o, Entries(o));
      RestIsAccepted(db, stored, o);
      if Closed(stored, o).Some? { ClosedFacts(db, ran, stored, o); }
    }
    RecordableIs(db, o);
  }

  lemma RecordableIs(db: Db, o: Outcome)
    requires o.run !in db.runs && o.session in db.sessions
    ensures Recordable(db, o) <==> EntriesFit(db, Entries(o)) && (ContextOf(o).Some? ==> ContextAllowed(db, o))
  {
    hide EntriesFit, Entries, ContextAllowed, ContextOf;
  }

  lemma RanFacts(db: Db, ran: Db, o: Outcome)
    requires ran == db.(runs := db.runs[o.run := RunRow(o.session, o.result.run)]) && o.session in db.sessions
    requires forall a :: a in db.artifacts ==> db.artifacts[a].run != Some(o.run)
    ensures NewRun(ran, o) && (EntriesFit(ran, Entries(o)) <==> EntriesFit(db, Entries(o)))
  {
    hide Entries;
  }

  lemma StoredFacts(db: Db, ran: Db, stored: Db, o: Outcome)
    requires ran == db.(runs := db.runs[o.run := RunRow(o.session, o.result.run)]) && Added(ran, stored, o, Entries(o))
    ensures Added(db, db.(artifacts := stored.artifacts), o, Entries(o)) && o.run in stored.runs
    ensures stored == ran.(artifacts := stored.artifacts) && ran.artifacts == db.artifacts
    ensures stored.sessions == db.sessions && stored.contexts == db.contexts && stored.profiles == db.profiles
  {
    hide Entries;
  }

  lemma ClosedFacts(db: Db, ran: Db, stored: Db, o: Outcome)
    requires o.session in db.sessions && Closed(stored, o).Some?
    requires ran == db.(runs := db.runs[o.run := RunRow(o.session, o.result.run)])
    requires stored == ran.(artifacts := stored.artifacts)
    requires Added(db, db.(artifacts := stored.artifacts), o, Entries(o))
    requires Closed(stored, o).value == stored.(
               contexts := if ContextOf(o).Some? then db.contexts[o.contextId := ContextOf(o).value] else db.contexts,
               sessions := db.sessions[o.session := db.sessions[o.session].(
                             latestInitial := IdOf(o.result.initial), latestFinal := IdOf(o.result.final))])
    ensures RecordedAs(db, Closed(stored, o).value, o)
  {
    hide Added, Entries, Closed;
  }

  lemma RecordedExactly(db: Db, o: Outcome)
    requires RowInv(db)
    ensures Recorded(db, o).Some? <==> Recordable(db, o)
    ensures Recorded(db, o).Some? ==> RecordedAs(db, Recorded(db, o).value, o)
  {
    if o.run !in db.runs && o.session in db.sessions {
      forall a | a in db.artifacts ensures db.artifacts[a].run != Some(o.run) { assert ArtifactFits(db, db.artifacts[a]); }
      assert SessionFits(db, db.sessions[o.session]);
      hide *;
      RecordedWhenNew(db, o);
    }
  }

  /** The rows of a recorded run, column by column. */
  ghost predicate ShowsArtifacts(db: Db, after: Db, o: Outcome) {
    && (o.result.initial.Some? ==> HasRow(after, o, o.result.initial.value, 0))
    && (forall i :: 0 <= i < |o.diagnostics| ==> HasRow(after, o, o.diagnostics[i].0, o.diagnostics[i].1))
    && (o.result.final.Some? ==> HasRow(after, o, o.result.final.value, 100))
    && (forall a :: a in db.artifacts ==> a in after.artifacts && after.artifacts[a] == db.artifacts[a])
    && (forall a :: a in after.artifacts && a !in db.artifacts ==>
          || (o.result.initial.Some? && a == o.result.initial.value.id)
          || (o.result.final.Some? && a == o.result.final.value.id)
          || exists i :: 0 <= i < |o.diagnostics| && a == o.diagnostics[i].0.id)
  }

  ghost predicate HasRow(after: Db, o: Outcome, ref: ArtifactRef, order: int) {
    && ref.id in after.artifacts
    && after.artifacts[ref.id] == ArtifactRow(ref := ref, session := Some(o.session), run := Some(o.run), order := Some(order))
  }

  ghost predicate ShowsContext(db: Db, after: Db, o: Outcome) {
    match o.result.context
    case None => after.contexts == db.contexts
    case Some(context) =>
      after.contexts == db.contexts[o.contextId := ContextRow(
        run := o.run, session := o.session,
        initial := if context.initial.Some? then Some(context.initial.value.id) else None,
        final := if context.final.Some? then Some(context.final.value.id) else None)]
  }

  ghost predicate Shows(db: Db, after: Db, o: Outcome) {
    && after.runs == db.runs[o.run := RunRow(session := o.session, record := o.result.run)]
    && ShowsArtifacts(db, after, o) && ShowsContext(db, after, o)
    && o.session in db.sessions
    && after.sessions == db.sessions[o.session := db.sessions[o.session].(
         latestInitial := if o.result.initial.Some? then Some(o.result.initial.value.id) else None,
         latestFinal := if o.result.final.Some? then Some(o.result.final.value.id) else None)]
    && after.profiles == db.profiles && after.health == db.health
  }

  lemma AddedShows(db: Db, after: Db, o: Outcome)
    requires Added(db, db.(artifacts := after.artifacts), o, Entries(o))
    ensures ShowsArtifacts(db, after, o)
  {
    var e, lead := Entries(o), |At(o.result.initial, ORDER_INITIAL)|;
    assert o.result.initial.Some? ==> e[0] == (o.result.initial.value, 0);
    assert o.result.final.Some? ==> e[|e| - 1] == (o.result.final.value, 100);
    forall i | 0 <= i < |o.diagnostics| ensures HasRow(after, o, o.diagnostics[i].0, o.diagnostics[i].1) {
      assert e[lead + i] == o.diagnostics[i];
    }
    forall a | a in after.artifacts && a !in db.artifacts
      ensures (o.result.initial.Some? && a == o.result.initial.value.id)
              || (o.result.final.Some? && a == o.result.final.value.id)
              || exists i :: 0 <= i < |o.diagnostics| && a == o.diagnostics[i].0.id
    {
      var k :| 0 <= k < |e| && e[k].0.id == a;
      assert lead <= k < lead + |o.diagnostics| ==> e[k] == o.diagnostics[k - lead];
    }
  }

  lemma ContextShows(db: Db, after: Db, o: Outcome)
    requires after.contexts == (if ContextOf(o).Some? then db.contexts[o.contextId := ContextOf(o).value] else db.contexts)
    ensures ShowsContext(db, after, o)
  {
  }

  /** Whatever was recorded can be read off the rows. */
  lemma RecordedShows(db: Db, o: Outcome)
    requires RowInv(db) && Recorded(db, o).Some?
    ensures Shows(db, Recorded(db, o).value, o)
  {
    RecordedExactly(db, o);
    var after := Recorded(db, o).value;
    hide RowInv, Recorded, Recordable, Added, Entries, ContextOf;
    AddedShows(db, after, o);
    ContextShows(db, after, o);
  }

  lemma RecordedHolds(db: Db, o: Outcome)
    ensures RowInv(db) && Recorded(db, o).Some? ==>
              Shows(db, Recorded(db, o).value, o) && Constraints(Recorded(db, o).value)
  {
    hide *;
    if RowInv(db) && Recorded(db, o).Some? {
      RecordedShows(db, o);
      RecordingKeepsRowInv(db, o);
      RowInvExactly(Recorded(db, o).value);
    }
  }

  // ------------------------------------------------------------------
  // Runs as the executor produces them
  // ------------------------------------------------------------------

  /** What `ManagedSessionContext.Exit` puts into its result. */
  predicate FromExit(o: Outcome) {
    && o.result.context == Some(ContextRecord(o.result.initial, o.result.final, true))
    && o.result.run.artifacts == Collected(o.result.initial, o.result.final)
  }

  lemma ExitGivesIt(job: Job, initial: Option<ArtifactRef>, caller: Option<Exc>, f: ExitFaults, o: Outcome)
    requires o.result == ExitResult(job, initial, caller, f)
    ensures FromExit(o)
  {
  }

  ghost predicate DistinctIds(entries: seq<(ArtifactRef, int)>) {
    forall i, j :: 0 <= i < j < |entries| ==> entries[i].0.id != entries[j].0.id
  }

  /** Orders as the plans allocate them: distinct, and strictly between those of the two
      snapshots. */
  ghost predicate OrdersBetween(diagnostics: seq<(ArtifactRef, int)>) {
    && (forall i :: 0 <= i < |diagnostics| ==> ORDER_INITIAL < diagnostics[i].1 < ORDER_FINAL)
    && (forall i, j :: 0 <= i < j < |diagnostics| ==> diagnostics[i].1 != diagnostics[j].1)
  }

  lemma OrdersAreDistinct(o: Outcome)
    requires OrdersBetween(o.diagnostics)
    ensures var e := Entries(o); forall i, j :: 0 <= i < j < |e| ==> e[i].1 != e[j].1
  {
    var e, lead := Entries(o), At(o.result.initial, ORDER_INITIAL);
    forall i, j | 0 <= i < j < |e| ensures e[i].1 != e[j].1 {
      if |lead| <= i && j < |lead| + |o.diagnostics| {
        assert e[i] == o.diagnostics[i - |lead|] && e[j] == o.diagnostics[j - |lead|];
      } else if |lead| <= i < |lead| + |o.diagnostics| {
        assert e[i] == o.diagnostics[i - |lead|];
      } else if |lead| <= j < |lead| + |o.diagnostics| {
        assert e[j] == o.diagnostics[j - |lead|];
      }
    }
  }

  /** With fresh ids, no constraint is violated, and all of them still hold afterwards. */
  lemma FreshRunIsRecorded(db: Db, o: Outcome)
    requires RowInv(db) && FromExit(o) && OrdersBetween(o.diagnostics)
    requires o.session in db.sessions && o.run !in db.runs && o.contextId !in db.contexts
    requires DistinctIds(Entries(o)) && forall i :: 0 <= i < |Entries(o)| ==> Entries(o)[i].0.id !in db.artifacts
    ensures Recorded(db, o).Some? && RowInv(Recorded(db, o).value) && RecordedAs(db, Recorded(db, o).value, o)
  {
    OrdersAreDistinct(o);
    OwnRefsAreEntries(o);
    assert EntriesFit(db, Entries(o));
    hide Entries, RowInv, Recorded, RecordedAs, EntriesFit, Ids;
    assert Recordable(db, o);
    RecordedExactly(db, o);
    RecordingKeepsRowInv(db, o);
  }

  // ------------------------------------------------------------------
  // Listing the artifacts of a run
  // ------------------------------------------------------------------

  /** `_artifacts_for_run`: each artifact row of the run once, by order; whatever decides
      between rows of equal order is left open. */
  ghost predicate Listing(db: Db, run: Id, ids: seq<Id>) {
    && (forall a :: a in ids <==> a in db.artifacts && db.artifacts[a].run == Some(run))
    && (forall a :: a in ids ==> db.artifacts[a].order.Some?)
    && (forall i, j :: 0 <= i < j < |ids| ==>
          ids[i] != ids[j] && db.artifacts[ids[i]].order.value <= db.artifacts[ids[j]].order.value)
  }

  /** No two artifacts of a run have the same order, so creation time and id never decide. */
  lemma ListingIsStrict(db: Db, run: Id, ids: seq<Id>)
    requires RowInv(db) && Listing(db, run, ids)
    ensures forall i, j :: 0 <= i < j < |ids| ==>
              db.artifacts[ids[i]].order.value < db.artifacts[ids[j]].order.value
  {
    forall i, j | 0 <= i < j < |ids| ensures db.artifacts[ids[i]].order.value < db.artifacts[ids[j]].order.value {
      assert ids[i] in ids && ids[j] in ids;
      assert !Clash(db.artifacts[ids[i]], db.artifacts[ids[j]]);
    }
  }

  /** Two sequences of the same elements, both strictly ascending by `order`, are equal. */
  lemma {:induction false} AscendingIsUnique(order: map<Id, int>, a: seq<Id>, b: seq<Id>)
    requires forall x :: x in a <==> x in b
    requires forall x :: x in a ==> x in order
    requires forall i, j :: 0 <= i < j < |a| ==> order[a[i]] < order[a[j]]
    requires forall i, j :: 0 <= i < j < |b| ==> order[b[i]] < order[b[j]]
    ensures a == b
  {
    assert b != [] ==> b[0] in b;
    if a != [] {
      assert a[0] in b;
      var m, n := |a| - 1, |b| - 1;
      assert a[m] in b && b[n] in a;
      assert a[m] == b[n];
      var a', b' := a[..m], b[..n];
      forall x ensures x in a' <==> x in b' {
        DropLast(order, a, x);
        DropLast(order, b, x);
      }
      AscendingIsUnique(order, a', b');
      assert a == a' + [a[m]] && b == b' + [b[n]];
    }
  }

  lemma DropLast(order: map<Id, int>, a: seq<Id>, x: Id)
    requires a != [] && forall y :: y in a ==> y in order
    requires forall i, j :: 0 <= i < j < |a| ==> order[a[i]] < order[a[j]]
    ensures x in a[..|a| - 1] <==> x in a && x != a[|a| - 1]
  {
  }

  /** So a run has exactly one listing. */
  lemma ListingIsUnique(db: Db, run: Id, a: seq<Id>, b: seq<Id>)
    requires RowInv(db) && Listing(db, run, a) && Listing(db, run, b)
    ensures a == b
  {
    ListingIsStrict(db, run, a);
    ListingIsStrict(db, run, b);
    var order := map x | x in a :: db.artifacts[x].order.value;
    assert forall i :: 0 <= i < |a| ==> a[i] in a;
    assert forall i :: 0 <= i < |b| ==> b[i] in b;
    hide RowInv;
    AscendingIsUnique(order, a, b);
  }

  ghost predicate Subsequence<T(!new)>(small: seq<T>, large: seq<T>) {
    exists at: seq<nat> ::
      && |at| == |small| && (forall i :: 0 <= i < |at| ==> at[i] < |large| && large[at[i]] == small[i])
      && (forall i, j :: 0 <= i < j < |at| ==> at[i] < at[j])
  }

  ghost predicate IsDiagnostic(after: Db, o: Outcome, a: Id) {
    exists d :: 0 <= d < |o.diagnostics| && a == o.diagnostics[d].0.id && a in after.artifacts
                && after.artifacts[a].order == Some(o.diagnostics[d].1)
  }

  /** The rehydrated run: the initial snapshot first, the final one last, the diagnostics
      between them by their orders. */
  ghost predicate ListsRun(after: Db, o: Outcome, ids: seq<Id>) {
    var lead, tail := |At(o.result.initial, ORDER_INITIAL)|, |At(o.result.final, ORDER_FINAL)|;
    && (forall a :: a in ids ==> a in after.artifacts)
    && |ids| == lead + |o.diagnostics| + tail
    && (lead == 1 ==> ids[0] == o.result.initial.value.id)
    && (tail == 1 ==> ids[|ids| - 1] == o.result.final.value.id)
    && (forall k :: lead <= k < lead + |o.diagnostics| ==> IsDiagnostic(after, o, ids[k]))
  }

  function Names(refs: seq<ArtifactRef>): seq<Id> { seq(|refs|, i requires 0 <= i < |refs| => refs[i].id) }

  lemma {:induction false} DistinctCount(s: seq<Id>)
    requires forall i, j :: 0 <= i < j < |s| ==> s[i] != s[j]
    ensures |set x | x in s| == |s|
  {
    if s != [] {
      var n := |s| - 1;
      DistinctCount(s[..n]);
      assert (set x | x in s) == (set x | x in s[..n]) + {s[n]};
    }
  }

  /** Every entry is a row of the run and every row of the run is an entry. */
  lemma RowsOfRun(db: Db, after: Db, o: Outcome)
    requires RowInv(db) && o.run !in db.runs && RecordedAs(db, after, o)
    ensures forall i :: 0 <= i < |Entries(o)| ==>
              Entries(o)[i].0.id in after.artifacts && after.artifacts[Entries(o)[i].0.id] == RowOf(o, Entries(o)[i])
    ensures forall a :: a in after.artifacts && after.artifacts[a].run == Some(o.run) ==>
              exists i :: 0 <= i < |Entries(o)| && Entries(o)[i].0.id == a
  {
    forall a | a in db.artifacts ensures db.artifacts[a].run != Some(o.run) { assert ArtifactFits(db, db.artifacts[a]); }
    hide RowInv, Entries;
  }

  lemma ListingCount(db: Db, after: Db, o: Outcome, ids: seq<Id>)
    requires RowInv(db) && o.run !in db.runs && RecordedAs(db, after, o) && DistinctIds(Entries(o))
    requires Listing(after, o.run, ids)
    ensures |ids| == |Entries(o)|
  {
    hide *;
    RowsOfRun(db, after, o);
    ListedNames(after, o, Entries(o), ids);
    NamesAreDistinct(Entries(o));
    SameCount(NamesOf(Entries(o)), ids);
  }

  lemma NamesAreDistinct(entries: seq<(ArtifactRef, int)>)
    requires DistinctIds(entries)
    ensures |NamesOf(entries)| == |entries|
    ensures forall i, j :: 0 <= i < j < |NamesOf(entries)| ==> NamesOf(entries)[i] != NamesOf(entries)[j]
  {
  }

  lemma SameCount(a: seq<Id>, b: seq<Id>)
    requires forall i, j :: 0 <= i < j < |a| ==> a[i] != a[j]
    requires forall i, j :: 0 <= i < j < |b| ==> b[i] != b[j]
    requires forall x :: x in a <==> x in b
    ensures |a| == |b|
  {
    DistinctCount(a);
    DistinctCount(b);
    assert (set x | x in a) == (set x | x in b);
  }

  function NamesOf(entries: seq<(ArtifactRef, int)>): seq<Id> {
    seq(|entries|, i requires 0 <= i < |entries| => entries[i].0.id)
  }

  lemma ListedNames(after: Db, o: Outcome, e: seq<(ArtifactRef, int)>, ids: seq<Id>)
    requires Listing(after, o.run, ids)
    requires forall i :: 0 <= i < |e| ==> e[i].0.id in after.artifacts && after.artifacts[e[i].0.id] == RowOf(o, e[i])
    requires forall a :: a in after.artifacts && after.artifacts[a].run == Some(o.run) ==>
               exists i :: 0 <= i < |e| && e[i].0.id == a
    ensures forall x :: x in NamesOf(e) <==> x in ids
    ensures forall i, j :: 0 <= i < j < |ids| ==> ids[i] != ids[j]
  {
    forall x ensures x in NamesOf(e) <==> x in ids {
      if x in ids {
        var i :| 0 <= i < |e| && e[i].0.id == x;
        assert NamesOf(e)[i] == x;
      }
    }
  }

  /** What is known of each listed id: it is some entry, with that entry's order. */
  ghost predicate Entry(after: Db, o: Outcome, a: Id, i: nat) {
    && i < |Entries(o)| && a in after.artifacts && Entries(o)[i].0.id == a
    && after.artifacts[a].order == Some(Entries(o)[i].1)
  }

  ghost predicate IsEntry(after: Db, o: Outcome, a: Id) {
    exists i: nat :: Entry(after, o, a, i)
  }

  lemma ListedAreEntries(db: Db, after: Db, o: Outcome, ids: seq<Id>)
    requires RowInv(db) && o.run !in db.runs && RecordedAs(db, after, o) && Listing(after, o.run, ids)
    ensures forall k :: 0 <= k < |ids| ==> IsEntry(after, o, ids[k])
    ensures forall i :: 0 <= i < |Entries(o)| ==> Entries(o)[i].0.id in ids && Entry(after, o, Entries(o)[i].0.id, i)
  {
    RowsOfRun(db, after, o);
    hide RowInv, Entries, RecordedAs;
    forall k | 0 <= k < |ids| ensures IsEntry(after, o, ids[k]) {
      assert ids[k] in ids;
      var i :| 0 <= i < |Entries(o)| && Entries(o)[i].0.id == ids[k];
      assert Entry(after, o, ids[k], i);
    }
  }

  lemma OrderBounds(o: Outcome, i: nat)
    requires OrdersBetween(o.diagnostics) && i < |Entries(o)|
    ensures ORDER_INITIAL <= Entries(o)[i].1 <= ORDER_FINAL
    ensures Entries(o)[i].1 == ORDER_INITIAL ==> o.result.initial.Some? && i == 0
    ensures Entries(o)[i].1 == ORDER_FINAL ==> o.result.final.Some? && i == |Entries(o)| - 1
    ensures o.result.initial.Some? ==> Entries(o)[0] == (o.result.initial.value, ORDER_INITIAL)
    ensures o.result.final.Some? ==> Entries(o)[|Entries(o)| - 1] == (o.result.final.value, ORDER_FINAL)
    ensures ORDER_INITIAL < Entries(o)[i].1 < ORDER_FINAL ==>
              exists d :: 0 <= d < |o.diagnostics| && o.diagnostics[d] == Entries(o)[i]
  {
    var e, lead := Entries(o), At(o.result.initial, ORDER_INITIAL);
    if |lead| <= i < |lead| + |o.diagnostics| { assert e[i] == o.diagnostics[i - |lead|]; }
  }

  /** Any listing of the recorded run, in any order the database may break ties, shows the
      initial snapshot, then the diagnostics by their orders, then the final snapshot; so the
      artifacts the run returned in memory appear in it in the same order. */
  lemma RecordedRunLists(db: Db, o: Outcome, ids: seq<Id>)
    requires RowInv(db) && FromExit(o) && OrdersBetween(o.diagnostics) && DistinctIds(Entries(o))
    requires Recorded(db, o).Some? && Listing(Recorded(db, o).value, o.run, ids)
    ensures ListsRun(Recorded(db, o).value, o, ids)
    ensures Subsequence(Names(o.result.run.artifacts), ids)
  {
    hide *;
    var after := Recorded(db, o).value;
    ListingIsOrdered(db, o, ids);
    Ends(after, o, ids);
    Middle(after, o, ids);
    AllTogether(after, o, ids);
  }

  /** What is used of a listing. */
  ghost predicate Ordered(after: Db, o: Outcome, ids: seq<Id>) {
    && OrdersBetween(o.diagnostics) && |ids| == |Entries(o)|
    && (forall k :: 0 <= k < |ids| ==> IsEntry(after, o, ids[k]))
    && (forall i :: 0 <= i < |Entries(o)| ==> Entries(o)[i].0.id in ids && Entry(after, o, Entries(o)[i].0.id, i))
    && (forall a :: a in ids ==> a in after.artifacts && after.artifacts[a].order.Some?)
    && (forall i, j :: 0 <= i < j < |ids| ==>
          after.artifacts[ids[i]].order.value < after.artifacts[ids[j]].order.value)
  }

  lemma ListingIsOrdered(db: Db, o: Outcome, ids: seq<Id>)
    requires RowInv(db) && OrdersBetween(o.diagnostics) && DistinctIds(Entries(o))
    requires Recorded(db, o).Some? && Listing(Recorded(db, o).value, o.run, ids)
    ensures Ordered(Recorded(db, o).value, o, ids)
  {
    var after := Recorded(db, o).value;
    RecordedExactly(db, o);
    RecordingKeepsRowInv(db, o);
    assert o.run !in db.runs;
    hide RowInv, RecordedAs, Recorded, Entry, IsEntry, Entries, OrdersBetween;
    ListingIsStrict(after, o.run, ids);
    ListingCount(db, after, o, ids);
    ListedAreEntries(db, after, o, ids);
  }

  lemma FirstListed(after: Db, o: Outcome, ids: seq<Id>)
    requires Ordered(after, o, ids) && o.result.initial.Some?
    ensures |ids| > 0 && ids[0] == o.result.initial.value.id
  {
    OrderBounds(o, 0);
    var a := o.result.initial.value.id;
    assert Entries(o)[0].0.id in ids;
    var p :| 0 <= p < |ids| && ids[p] == a;
    assert IsEntry(after, o, ids[0]);
    var i: nat :| Entry(after, o, ids[0], i);
    OrderBounds(o, i);
    assert Entry(after, o, a, 0);
    hide Entries;
  }

  lemma LastListed(after: Db, o: Outcome, ids: seq<Id>)
    requires Ordered(after, o, ids) && o.result.final.Some?
    ensures |ids| > 0 && ids[|ids| - 1] == o.result.final.value.id
  {
    var last := |Entries(o)| - 1;
    OrderBounds(o, last);
    var a := o.result.final.value.id;
    assert Entries(o)[last].0.id in ids;
    var p :| 0 <= p < |ids| && ids[p] == a;
    assert IsEntry(after, o, ids[|ids| - 1]);
    var i: nat :| Entry(after, o, ids[|ids| - 1], i);
    OrderBounds(o, i);
    assert Entry(after, o, a, last);
    hide Entries;
  }

  lemma Ends(after: Db, o: Outcome, ids: seq<Id>)
    requires Ordered(after, o, ids)
    ensures o.result.initial.Some? ==> |ids| > 0 && ids[0] == o.result.initial.value.id
    ensures o.result.final.Some? ==> |ids| > 0 && ids[|ids| - 1] == o.result.final.value.id
  {
    hide *;
    if o.result.initial.Some? { FirstListed(after, o, ids); }
    if o.result.final.Some? { LastListed(after, o, ids); }
  }

  lemma Middle(after: Db, o: Outcome, ids: seq<Id>)
    requires Ordered(after, o, ids)
    ensures var lead := |At(o.result.initial, ORDER_INITIAL)|;
            lead + |o.diagnostics| <= |ids|
            && forall k :: lead <= k < lead + |o.diagnostics| ==> IsDiagnostic(after, o, ids[k])
  {
    Ends(after, o, ids);
    var lead := |At(o.result.initial, ORDER_INITIAL)|;
    forall k | lead <= k < lead + |o.diagnostics| ensures IsDiagnostic(after, o, ids[k]) {
      assert IsEntry(after, o, ids[k]);
      var i: nat :| Entry(after, o, ids[k], i);
      if o.result.initial.Some? { OrderBounds(o, 0); assert Entry(after, o, ids[0], 0); }
      if o.result.final.Some? { OrderBounds(o, |Entries(o)| - 1); assert Entry(after, o, ids[|ids| - 1], |Entries(o)| - 1); }
      OrderBounds(o, i);
    }
  }

  lemma AllTogether(after: Db, o: Outcome, ids: seq<Id>)
    requires FromExit(o) && Ordered(after, o, ids)
    requires o.result.initial.Some? ==> |ids| > 0 && ids[0] == o.result.initial.value.id
    requires o.result.final.Some? ==> |ids| > 0 && ids[|ids| - 1] == o.result.final.value.id
    requires var lead := |At(o.result.initial, ORDER_INITIAL)|;
             lead + |o.diagnostics| <= |ids|
             && forall k :: lead <= k < lead + |o.diagnostics| ==> IsDiagnostic(after, o, ids[k])
    ensures ListsRun(after, o, ids) && Subsequence(Names(o.result.run.artifacts), ids)
  {
    assert |Entries(o)| == |At(o.result.initial, ORDER_INITIAL)| + |o.diagnostics| + |At(o.result.final, ORDER_FINAL)|;
    hide IsDiagnostic, Entry, IsEntry, OrdersBetween, Entries;
    CollectedAt(o, ids);
  }

  lemma CollectedAt(o: Outcome, ids: seq<Id>)
    requires FromExit(o) && |ids| >= |At(o.result.initial, ORDER_INITIAL)| + |At(o.result.final, ORDER_FINAL)|
    requires o.result.initial.Some? ==> |ids| > 0 && ids[0] == o.result.initial.value.id
    requires o.result.final.Some? ==> |ids| > 0 && ids[|ids| - 1] == o.result.final.value.id
    ensures Subsequence(Names(o.result.run.artifacts), ids)
  {
    var names := Names(o.result.run.artifacts);
    var at: seq<nat> := (if o.result.initial.Some? then [0] else []) + (if o.result.final.Some? then [|ids| - 1] else []);
    assert |at| == |names| && forall i :: 0 <= i < |at| ==> at[i] < |ids| && ids[at[i]] == names[i];
  }
}
