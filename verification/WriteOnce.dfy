/** The write-once store under interleaving (artifacts/manager.py).

    Any number of writers step through `_exclusive_write`, each at its own pace and failing
    anywhere.  As on a real file system a name and the file behind it are different things:
    writing goes through the descriptor to an inode, creating and unlinking go by name. */
module WriteOnce {
  import opened FileTree

  type WriterId = nat
  type Inode = nat

  datatype Ref = Ref(path: Path, sha: string, size: nat)

  datatype Stage =
    | Ready                            // before the exclusive create
    | Writing(inode: Inode, done: nat) // `done` bytes are on disk
    | Failing(inode: Inode)            // an exception was raised, the unlink is next
    | Complete(inode: Inode)           // written and synced, the reference not yet built
    | Returned(inode: Inode, ref: Ref)
    | Orphaned(inode: Inode)           // a later check raised: the file stays, no reference
    | Failed

  datatype Writer = Writer(path: Path, payload: Bytes, stage: Stage)

  datatype Store = Store(
    names: map<Path, Inode>, data: map<Inode, Bytes>, next: Inode, writers: map<WriterId, Writer>)

  datatype Action =
    | Start(who: WriterId, path: Path, payload: Bytes)
    | Create(who: WriterId, fails: bool)
    | Chunk(who: WriterId, n: nat)
    | Raise(who: WriterId)
    | Unlink(who: WriterId, fails: bool)
    | Close(who: WriterId)
    | Finish(who: WriterId, fails: bool)

  predicate Fits(s: Store, a: Action) {
    if a.Start? then a.who !in s.writers else a.who in s.writers
  }

  function SetStage(s: Store, who: WriterId, stage: Stage): Store
    requires who in s.writers
  {
    s.(writers := s.writers[who := s.writers[who].(stage := stage)])
  }

  /** One step of one writer; an action that does not fit the writer's stage does nothing. */
  function Apply(hash: Bytes -> string, s: Store, a: Action): Store {
    if !Fits(s, a) then s
    else if a.Start? then s.(writers := s.writers[a.who := Writer(a.path, a.payload, Ready)])
    else
      var w := s.writers[a.who];
      match (a, w.stage)
      case (Create(who, fails), Ready) =>
        if w.path in s.names || fails then SetStage(s, who, Failed)
        else
          SetStage(
            s.(names := s.names[w.path := s.next], data := s.data[s.next := []], next := s.next + 1),
            who, Writing(s.next, 0))
      case (Chunk(who, n), Writing(i, done)) =>
        var end := if done + n <= |w.payload| then done + n else |w.payload|;
        SetStage(s.(data := s.data[i := w.payload[..end]]), who, Writing(i, end))
      case (Raise(who), Writing(i, _)) => SetStage(s, who, Failing(i))
      case (Unlink(who, fails), Failing(_)) =>
        SetStage(if fails then s else s.(names := s.names - {w.path}), who, Failed)
      case (Close(who), Writing(i, done)) =>
        if done == |w.payload| then SetStage(s, who, Complete(i)) else s
      case (Finish(who, fails), Complete(i)) =>
        SetStage(s, who, if fails then Orphaned(i) else Returned(i, Ref(w.path, hash(w.payload), |w.payload|)))
      case _ => s
  }

  function Run(hash: Bytes -> string, s: Store, actions: seq<Action>): Store
    decreases |actions|
  {
    if actions == [] then s
    else Apply(hash, Run(hash, s, actions[..|actions| - 1]), actions[|actions| - 1])
  }

  /** The store as another process left it: names point at files, no writer yet. */
  ghost predicate Initial(s: Store) {
    && s.writers == map[]
    && (forall p :: p in s.names ==> s.names[p] in s.data)
    && (forall i :: i in s.data ==> i < s.next)
  }

  /** A reader of the file at `ref.path`: it hands out only what verifies. */
  function Read(hash: Bytes -> string, s: Store, ref: Ref): Result<Bytes> {
    if ref.path !in s.names || s.names[ref.path] !in s.data then Err(Integrity) else
    var raw := s.data[s.names[ref.path]];
    if |raw| != ref.size || hash(raw) != ref.sha then Err(Integrity) else Ok(raw)
  }

  // ------------------------------------------------------------------
  // The invariant
  // ------------------------------------------------------------------

  predicate Owns(w: Writer) {
    w.stage.Writing? || w.stage.Failing? || w.stage.Complete? || w.stage.Returned? || w.stage.Orphaned?
  }

  predicate Unfinished(w: Writer) { w.stage.Writing? || w.stage.Failing? }

  /** The name of a writer's file is still its own, and the file holds a prefix of its
      payload: all of it once the writer is past writing. */
  ghost predicate WriterInv(hash: Bytes -> string, s: Store, w: Writer) {
    Owns(w) ==>
      && w.path in s.names && s.names[w.path] == w.stage.inode
      && w.stage.inode in s.data
      && s.data[w.stage.inode] <= w.payload
      && (w.stage.Writing? ==> w.stage.done == |s.data[w.stage.inode]|)
      && (!Unfinished(w) ==> s.data[w.stage.inode] == w.payload)
      && (w.stage.Returned? ==> w.stage.ref == Ref(w.path, hash(w.payload), |w.payload|))
  }

  ghost predicate Inv(hash: Bytes -> string, s: Store) {
    && (forall p :: p in s.names ==> s.names[p] in s.data)
    && (forall i :: i in s.data ==> i < s.next)
    && (forall k :: k in s.writers ==> WriterInv(hash, s, s.writers[k]))
    && (forall j, k :: j in s.writers && k in s.writers && j != k && Owns(s.writers[j]) && Owns(s.writers[k])
          ==> s.writers[j].stage.inode != s.writers[k].stage.inode)
    && (forall p, k :: p in s.names && k in s.writers && Owns(s.writers[k]) && s.names[p] == s.writers[k].stage.inode
          ==> p == s.writers[k].path)
  }

  lemma StartKeepsInv(hash: Bytes -> string, s: Store, a: Action)
    requires Inv(hash, s) && a.Start?
    ensures Inv(hash, Apply(hash, s, a))
  {
  }

  lemma CreateKeepsInv(hash: Bytes -> string, s: Store, a: Action)
    requires Inv(hash, s) && a.Create? && !a.fails && Fits(s, a) && s.writers[a.who].stage.Ready? && s.writers[a.who].path !in s.names
    ensures Inv(hash, Apply(hash, s, a))
  {
  }

  lemma CreateFailsKeepsInv(hash: Bytes -> string, s: Store, a: Action)
    requires Inv(hash, s) && a.Create? && (a.fails || !Fits(s, a) || !s.writers[a.who].stage.Ready? || s.writers[a.who].path in s.names)
    ensures Inv(hash, Apply(hash, s, a))
  {
  }

  lemma ChunkKeepsInv(hash: Bytes -> string, s: Store, a: Action)
    requires Inv(hash, s) && a.Chunk?
    ensures Inv(hash, Apply(hash, s, a))
  {
  }

  lemma UnlinkKeepsInv(hash: Bytes -> string, s: Store, a: Action)
    requires Inv(hash, s) && a.Unlink? && !a.fails
    ensures Inv(hash, Apply(hash, s, a))
  {
    if Fits(s, a) && s.writers[a.who].stage.Failing? {
      var w := s.writers[a.who];
      assert WriterInv(hash, s, w);
      assert Apply(hash, s, a) == SetStage(s.(names := s.names - {w.path}), a.who, Failed);
      assert forall k :: k in s.writers && k != a.who && Owns(s.writers[k]) ==>
        WriterInv(hash, s, s.writers[k]) && s.writers[k].path != w.path;
    }
  }

  lemma UnlinkFailsKeepsInv(hash: Bytes -> string, s: Store, a: Action)
    requires Inv(hash, s) && a.Unlink? && a.fails
    ensures Inv(hash, Apply(hash, s, a))
  {
  }

  lemma RaiseKeepsInv(hash: Bytes -> string, s: Store, a: Action)
    requires Inv(hash, s) && a.Raise?
    ensures Inv(hash, Apply(hash, s, a))
  {
  }

  lemma CloseKeepsInv(hash: Bytes -> string, s: Store, a: Action)
    requires Inv(hash, s) && a.Close?
    ensures Inv(hash, Apply(hash, s, a))
  {
  }

  lemma FinishKeepsInv(hash: Bytes -> string, s: Store, a: Action)
    requires Inv(hash, s) && a.Finish?
    ensures Inv(hash, Apply(hash, s, a))
  {
  }

  lemma StepKeepsInv(hash: Bytes -> string, s: Store, a: Action)
    requires Inv(hash, s)
    ensures Inv(hash, Apply(hash, s, a))
  {
    hide Inv, Apply;
    match a
    case Start(_, _, _) => StartKeepsInv(hash, s, a);
    case Create(who, fails) =>
      if fails || !Fits(s, a) || !s.writers[who].stage.Ready? || s.writers[who].path in s.names {
        CreateFailsKeepsInv(hash, s, a);
      } else {
        CreateKeepsInv(hash, s, a);
      }
    case Chunk(_, _) => ChunkKeepsInv(hash, s, a);
    case Raise(_) => RaiseKeepsInv(hash, s, a);
    case Unlink(_, fails) => if fails { UnlinkFailsKeepsInv(hash, s, a); } else { UnlinkKeepsInv(hash, s, a); }
    case Close(_) => CloseKeepsInv(hash, s, a);
    case Finish(_, _) => FinishKeepsInv(hash, s, a);
  }

  lemma {:induction false} RunKeepsInv(hash: Bytes -> string, s: Store, actions: seq<Action>)
    requires Inv(hash, s)
    ensures Inv(hash, Run(hash, s, actions))
    decreases |actions|
  {
    if actions != [] {
      var before := actions[..|actions| - 1];
      RunKeepsInv(hash, s, before);
      StepKeepsInv(hash, Run(hash, s, before), actions[|actions| - 1]);
    }
  }

  // ------------------------------------------------------------------
  // What every interleaving keeps
  // ------------------------------------------------------------------

  /** A name whose file nobody is still writing or about to remove: a completed artifact, an
      orphan, a file that was there before, or an abandoned partial. */
  ghost predicate Settled(s: Store, p: Path) {
    && p in s.names && s.names[p] in s.data
    && forall k :: k in s.writers && Unfinished(s.writers[k]) ==> s.writers[k].stage.inode != s.names[p]
  }

  ghost predicate SameFile(s: Store, s': Store, p: Path) {
    && p in s.names && p in s'.names && s'.names[p] == s.names[p]
    && s.names[p] in s.data && s.names[p] in s'.data && s'.data[s.names[p]] == s.data[s.names[p]]
  }

  lemma StepKeepsSettled(hash: Bytes -> string, s: Store, a: Action, p: Path)
    requires Inv(hash, s) && Settled(s, p)
    ensures Settled(Apply(hash, s, a), p) && SameFile(s, Apply(hash, s, a), p)
  {
  }

  /** Over every continuation a settled file keeps its name and its bytes. */
  lemma {:induction false} SettledFilesNeverChange(hash: Bytes -> string, s: Store, actions: seq<Action>, p: Path)
    requires Inv(hash, s) && Settled(s, p)
    ensures Settled(Run(hash, s, actions), p) && SameFile(s, Run(hash, s, actions), p)
    decreases |actions|
  {
    if actions != [] {
      var before := actions[..|actions| - 1];
      SettledFilesNeverChange(hash, s, before, p);
      RunKeepsInv(hash, s, before);
      StepKeepsSettled(hash, Run(hash, s, before), actions[|actions| - 1], p);
    }
  }

  /** The write-once theorem, over any interleaving of any writers with faults anywhere:
      every returned reference reads back its writer's bytes, now and after any further
      steps, and no path has two returned references. */
  lemma WriteOnceStore(hash: Bytes -> string, s0: Store, actions: seq<Action>, later: seq<Action>, k: WriterId)
    requires Initial(s0)
    requires var s := Run(hash, s0, actions); k in s.writers && s.writers[k].stage.Returned?
    ensures var s := Run(hash, s0, actions);
            var w := s.writers[k];
            && Read(hash, s, w.stage.ref) == Ok(w.payload)
            && Read(hash, Run(hash, s, later), w.stage.ref) == Ok(w.payload)
            && (forall j :: j in s.writers && j != k && s.writers[j].stage.Returned? ==> s.writers[j].path != w.path)
  {
    RunKeepsInv(hash, s0, actions);
    var s := Run(hash, s0, actions);
    assert WriterInv(hash, s, s.writers[k]);
    assert Settled(s, s.writers[k].path);
    SettledFilesNeverChange(hash, s, later, s.writers[k].path);
    forall j | j in s.writers && j != k && s.writers[j].stage.Returned?
      ensures s.writers[j].path != s.writers[k].path
    {
      assert WriterInv(hash, s, s.writers[j]);
    }
  }

  /** A step removes a name only when it is a failing writer's unlink, and then it is that
      writer's own file, which is incomplete or was never returned, and nobody else's. */
  lemma OnlyOwnPartialRemoved(hash: Bytes -> string, s: Store, a: Action, p: Path)
    requires Inv(hash, s) && p in s.names && p !in Apply(hash, s, a).names
    ensures a.Unlink? && a.who in s.writers
    ensures var w := s.writers[a.who];
            && w.stage.Failing? && w.path == p && s.names[p] == w.stage.inode
            && forall k :: k in s.writers && k != a.who && Owns(s.writers[k]) ==> s.writers[k].path != p
  {
    assert WriterInv(hash, s, s.writers[a.who]);
    forall k | k in s.writers && k != a.who && Owns(s.writers[k]) ensures s.writers[k].path != p {
      assert WriterInv(hash, s, s.writers[k]);
    }
  }

  // ------------------------------------------------------------------
  // A single writer
  // ------------------------------------------------------------------

  /** The unlink of a failing writer removes its partial file, and only that, exactly when the
      call gets through; the writer has failed either way. */
  lemma UnlinkRemovesPartial(hash: Bytes -> string, s: Store, who: WriterId, fails: bool)
    requires Inv(hash, s) && who in s.writers && s.writers[who].stage.Failing?
    ensures var s', path := Apply(hash, s, Unlink(who, fails)), s.writers[who].path;
            && path in s.names && (path in s'.names <==> fails)
            && s'.names - {path} == s.names - {path} && s'.data == s.data
            && s'.writers == s.writers[who := s.writers[who].(stage := Failed)]
  {
    assert WriterInv(hash, s, s.writers[who]);
  }

  function Sum(chunks: seq<nat>): nat { if chunks == [] then 0 else Sum(chunks[..|chunks| - 1]) + chunks[|chunks| - 1] }

  function Least(a: nat, b: nat): nat { if a <= b then a else b }

  function Chunks(who: WriterId, chunks: seq<nat>): seq<Action> {
    seq(|chunks|, i requires 0 <= i < |chunks| => Chunk(who, chunks[i]))
  }

  /** Everything one writer does when nothing fails, the payload written in any pieces. */
  function Write(who: WriterId, chunks: seq<nat>): seq<Action> {
    [Create(who, false)] + Chunks(who, chunks) + [Close(who)] + [Finish(who, false)]
  }

  /** The store with `done` bytes of the payload of `who` written under its path. */
  function Begun(s: Store, who: WriterId, done: nat, stage: Stage): Store
    requires who in s.writers && done <= |s.writers[who].payload|
  {
    var w := s.writers[who];
    Store(s.names[w.path := s.next], s.data[s.next := w.payload[..done]], s.next + 1,
          s.writers[who := w.(stage := stage)])
  }

  lemma RunOneMore(hash: Bytes -> string, s: Store, before: seq<Action>, last: Action)
    ensures Run(hash, s, before + [last]) == Apply(hash, Run(hash, s, before), last)
  {
    assert (before + [last])[..|before + [last]| - 1] == before;
    hide Apply;
  }

  lemma {:induction false} ChunksAreWritten(hash: Bytes -> string, s: Store, who: WriterId, chunks: seq<nat>)
    requires who in s.writers && s.writers[who].stage.Ready? && s.writers[who].path !in s.names
    ensures var done := Least(Sum(chunks), |s.writers[who].payload|);
            Run(hash, s, [Create(who, false)] + Chunks(who, chunks)) == Begun(s, who, done, Writing(s.next, done))
  {
    hide Apply;
    if chunks == [] {
      assert [Create(who, false)] + Chunks(who, chunks) == [] + [Create(who, false)];
      RunOneMore(hash, s, [], Create(who, false));
      CreateStep(hash, s, who);
    } else {
      var n := |chunks| - 1;
      var before := [Create(who, false)] + Chunks(who, chunks[..n]);
      ChunksAreWritten(hash, s, who, chunks[..n]);
      assert [Create(who, false)] + Chunks(who, chunks) == before + [Chunk(who, chunks[n])];
      RunOneMore(hash, s, before, Chunk(who, chunks[n]));
      hide Run, Chunks, Begun;
      ChunkStep(hash, s, who, Least(Sum(chunks[..n]), |s.writers[who].payload|), chunks[n]);
    }
  }

  lemma CreateStep(hash: Bytes -> string, s: Store, who: WriterId)
    requires who in s.writers && s.writers[who].stage.Ready? && s.writers[who].path !in s.names
    ensures Apply(hash, s, Create(who, false)) == Begun(s, who, 0, Writing(s.next, 0))
  {
    assert s.writers[who].payload[..0] == [];
  }

  lemma CloseStep(hash: Bytes -> string, s: Store, who: WriterId, done: nat)
    requires who in s.writers && done <= |s.writers[who].payload|
    ensures var w, writing := s.writers[who], Writing(s.next, done);
            Apply(hash, Begun(s, who, done, writing), Close(who))
              == Begun(s, who, done, if done == |w.payload| then Complete(s.next) else writing)
  {
  }

  lemma FinishStep(hash: Bytes -> string, s: Store, who: WriterId, done: nat, stage: Stage)
    requires who in s.writers && done <= |s.writers[who].payload| && (stage.Writing? || stage == Complete(s.next))
    ensures var w := s.writers[who];
            Apply(hash, Begun(s, who, done, stage), Finish(who, false))
              == Begun(s, who, done, if stage.Writing? then stage
                                     else Returned(s.next, Ref(w.path, hash(w.payload), |w.payload|)))
  {
  }

  lemma ChunkStep(hash: Bytes -> string, s: Store, who: WriterId, done: nat, n: nat)
    requires who in s.writers && done <= |s.writers[who].payload|
    ensures var end := Least(done + n, |s.writers[who].payload|);
            Apply(hash, Begun(s, who, done, Writing(s.next, done)), Chunk(who, n)) == Begun(s, who, end, Writing(s.next, end))
  {
  }

  /** Liveness: a writer that nobody is in the way of and whose calls all succeed returns a
      reference, however its writes are split, exactly when they make up the payload; and the
      reference names exactly that payload. */
  lemma UndisturbedWriterReturns(hash: Bytes -> string, s: Store, who: WriterId, chunks: seq<nat>)
    requires who in s.writers && s.writers[who].stage.Ready? && s.writers[who].path !in s.names
    ensures var w, s' := s.writers[who], Run(hash, s, Write(who, chunks));
            && (Sum(chunks) >= |w.payload| ==>
                  var ref := Ref(w.path, hash(w.payload), |w.payload|);
                  && s' == Begun(s, who, |w.payload|, Returned(s.next, ref)) && Read(hash, s', ref) == Ok(w.payload))
            && (Sum(chunks) < |w.payload| ==> s' == Begun(s, who, Sum(chunks), Writing(s.next, Sum(chunks))))
  {
    var w := s.writers[who];
    var written := [Create(who, false)] + Chunks(who, chunks);
    ChunksAreWritten(hash, s, who, chunks);
    RunOneMore(hash, s, written, Close(who));
    RunOneMore(hash, s, written + [Close(who)], Finish(who, false));
    hide Run, Chunks, Sum, Apply;
    var done := Least(Sum(chunks), |w.payload|);
    CloseStep(hash, s, who, done);
    FinishStep(hash, s, who, done, if done == |w.payload| then Complete(s.next) else Writing(s.next, done));
    assert w.payload[..|w.payload|] == w.payload;
  }

  /** A path that is taken is refused, and nothing is touched. */
  lemma TakenPathIsRefused(hash: Bytes -> string, s: Store, who: WriterId)
    requires who in s.writers && s.writers[who].stage.Ready? && s.writers[who].path in s.names
    ensures Apply(hash, s, Create(who, false)) == SetStage(s, who, Failed)
  {
  }
}
