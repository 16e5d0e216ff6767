/** `ArtifactManager` (artifacts/manager.py, artifacts/mime.py): one writer on a file system
    tree, with any of its system calls failing, and the verifying reader. */
module ArtifactStore {
  import opened Text
  import opened FileTree
  import opened ContainedPaths
  import Layout

  datatype ArtifactType = Screenshot | Trace | StorageStateInitial | StorageStateFinal
    | FingerprintProfile | RunLog | DiagnosticBundle

  const JSON_MIME := "application/json"
  const ZIP_MIME := "application/zip"
  const LINES_MIME := "application/x-jsonlines"

  function DefaultMime(kind: ArtifactType): string {
    match kind
    case Screenshot => "image/png"
    case Trace | DiagnosticBundle => ZIP_MIME
    case RunLog => LINES_MIME
    case _ => JSON_MIME
  }

  predicate Compatible(kind: ArtifactType, mime: string) {
    || mime == DefaultMime(kind)
    || (kind.Screenshot? && mime == "image/jpeg")
    || (kind.RunLog? && mime == "text/plain")
  }

  const EXTENSION_MIME: map<string, string> := map[
    ".json" := JSON_MIME, ".jsonl" := LINES_MIME, ".png" := "image/png", ".jpg" := "image/jpeg",
    ".jpeg" := "image/jpeg", ".zip" := ZIP_MIME, ".txt" := "text/plain", ".log" := "text/plain"]

  /** `infer_mime_type`.  A compatible MIME is always syntactically valid, and both failures
      of an explicit one are the same error. */
  function InferMime(kind: ArtifactType, suffix: string, explicit: Option<string>): (r: Result<string>)
    ensures r.Ok? <==> explicit.None? || Compatible(kind, Lower(Strip(explicit.value)))
    ensures if r.Ok? then Compatible(kind, r.value) else r.error == Unsupported
    ensures r.Ok? && explicit.Some? ==> r.value == Lower(Strip(explicit.value))
    ensures explicit.None? ==>
              r == Ok(if kind.Screenshot? && Lower(suffix) in {".jpg", ".jpeg"} then "image/jpeg"
                      else if kind.RunLog? && Lower(suffix) in {".txt", ".log"} then "text/plain"
                      else DefaultMime(kind))
  {
    match explicit
    case Some(text) =>
      var candidate := Lower(Strip(text));
      if Compatible(kind, candidate) then Ok(candidate) else Err(Unsupported)
    case None =>
      var ext := Lower(suffix);
      if ext in EXTENSION_MIME && Compatible(kind, EXTENSION_MIME[ext]) then Ok(EXTENSION_MIME[ext])
      else Ok(DefaultMime(kind))
  }

  /** The types each artifact may have, the default first. */
  function Fitting(kind: ArtifactType): (mimes: seq<string>)
    ensures |mimes| > 0
  {
    match kind
    case Screenshot => ["image/png", "image/jpeg"]
    case Trace => ["application/zip"]
    case StorageStateInitial => ["application/json"]
    case StorageStateFinal => ["application/json"]
    case FingerprintProfile => ["application/json"]
    case RunLog => ["application/x-jsonlines", "text/plain"]
    case DiagnosticBundle => ["application/zip"]
  }

  lemma CompatibleExactly(kind: ArtifactType, mime: string)
    ensures Compatible(kind, mime) <==> mime in Fitting(kind)
    ensures DefaultMime(kind) == Fitting(kind)[0]
  {
  }

  /** No MIME type is given, or one that fits the artifact type. */
  predicate Acceptable(kind: ArtifactType, mime: Option<string>) {
    mime.Some? ==> Compatible(kind, Lower(Strip(mime.value)))
  }

  /** `PurePath.suffix`. */
  function Suffix(name: string): string {
    var dot := LastDot(name);
    if 0 < dot < |name| - 1 then name[dot..] else ""
  }

  function LastDot(s: string): (k: int)
    ensures -1 <= k < |s| && (k >= 0 ==> s[k] == '.')
    ensures forall j :: k < j < |s| ==> s[j] != '.'
  {
    if s == "" then -1 else if s[|s| - 1] == '.' then |s| - 1 else LastDot(s[..|s| - 1])
  }

  /** The suffix starts at the last dot, unless that is the first or the last character. */
  lemma SuffixExactly(name: string, dot: nat)
    requires dot < |name| && name[dot] == '.' && forall j :: dot < j < |name| ==> name[j] != '.'
    ensures Suffix(name) == if dot == 0 || dot == |name| - 1 then "" else name[dot..]
  {
  }

  lemma NoSuffix(name: string)
    requires '.' !in name
    ensures Suffix(name) == ""
  {
  }

  datatype Ref = Ref(id: string, kind: ArtifactType, path: Path, sha: string, size: nat, mime: string)

  /** Which system call of one write fails; `unlink` and the directory creations fail
      independently of the rest. */
  datatype WriteFaults = WriteFaults(
    rootFailAt: int, parentFailAt: int, open: bool, write: Option<nat>, unlink: bool)

  predicate NoFaults(f: WriteFaults) {
    f.rootFailAt < 0 && f.parentFailAt < 0 && !f.open && f.write.None?
  }

  /** The regular files of a tree with their contents. */
  ghost function FilesOf(t: Tree): map<Path, Node> {
    map p | p in t && t[p].File? :: t[p]
  }

  /** `read_bytes` on a tree: resolve, open without following, check, verify. */
  function Read(t: Tree, root: Path, hash: Bytes -> string, ref: Ref): Result<Bytes> {
    var resolved := ResolveArtifact(t, root, PathArg(false, ref.path));
    if resolved.Err? then Err(resolved.error) else
    var absolute := resolved.value;
    if IsSymlink(t, absolute) then Err(Symlinked)
    else if absolute !in t then Err(Integrity)
    else match t[absolute]
      case File(raw) =>
        if |raw| != ref.size || hash(raw) != ref.sha then Err(Integrity) else Ok(raw)
      case _ => Err(BadPath)
  }

  /** Everything `write_bytes` checks before it creates the file. */
  ghost predicate Writable(t: Tree, root: Path, p: PathArg) {
    && !p.absolute && p.parts != [] && PlainPath(p.parts)
    && NoLinkBelow(t, root, p.parts) && ParentsAreDirs(t, root, p.parts)
    && root + p.parts !in t && OnlyDirsBelow(t, [], root)
  }

  /** The tree after a write that completed: parents added, one new complete file. */
  ghost predicate Written(t: Tree, t': Tree, target: Path, data: Bytes) {
    target !in t && target in t' && t'[target] == File(data) && DirsAdded(t, t' - {target})
  }

  /** A prefix of the payload was left behind at `target`. */
  ghost predicate IsPartial(t: Tree, t': Tree, target: Path, payload: Bytes) {
    exists n: nat :: n <= |payload| && t' == t[target := File(payload[..n])]
  }

  lemma DirsAddedKeepsFiles(t: Tree, t': Tree)
    requires DirsAdded(t, t')
    ensures FilesOf(t') == FilesOf(t)
  {
  }

  lemma DirsAddedTransitive(a: Tree, b: Tree, c: Tree)
    requires DirsAdded(a, b) && DirsAdded(b, c)
    ensures DirsAdded(a, c)
  {
  }

  /** Putting a file into a physical directory keeps the tree and the root well formed. */
  lemma AddFile(t: Tree, root: Path, parent: Path, name: string, data: Bytes)
    requires ResolvedRoot(t, root) && IsDir(t, parent) && Physical(t, parent)
    requires parent + [name] !in t
    ensures var t' := t[parent + [name] := File(data)];
            ResolvedRoot(t', root) && Physical(t', parent + [name]) && t' - {parent + [name]} == t
  {
    var target := parent + [name];
    var t' := t[target := File(data)];
    assert Parent(target) == parent;
    PhysicalStep(t', parent, name);
  }

  /** A completed write reads back: no scan, resolution or check of the reader can fail. */
  lemma WrittenReadsBack(t: Tree, root: Path, hash: Bytes -> string, ref: Ref, data: Bytes)
    requires ResolvedRoot(t, root) && PlainPath(ref.path) && ref.path != []
    requires Physical(t, root + ref.path) && ParentsAreDirs(t, root, ref.path)
    requires root + ref.path in t && t[root + ref.path] == File(data)
    requires ref.size == |data| && ref.sha == hash(data)
    ensures Read(t, root, hash, ref) == Ok(data)
  {
    hide Lstat, Follow, Scan, WellFormed;
    var p := PathArg(false, ref.path);
    var target := root + ref.path;
    forall k | 1 <= k <= |ref.path| ensures !IsLink(t, root + ref.path[..k]) {
      assert root + ref.path[..k] == target[..|root| + k];
    }
    ResolveExact(t, root, p);
    PlainConcat(root, ref.path);
    PhysicalPrefix(t, target, |target| - 1);
    hide ResolveArtifact, Physical, PlainPath;
    LstatPlain(t, target);
  }

  class ArtifactManager {
    const paths: ArtifactPaths
    const fs: FileSystem
    const hash: Bytes -> string

    ghost predicate Valid()
      reads this, fs
    {
      paths.fs == fs && ResolvedRoot(fs.tree, paths.root)
    }

    constructor (paths: ArtifactPaths, hash: Bytes -> string)
      requires paths.Valid()
      ensures Valid() && this.paths == paths && this.hash == hash
    {
      this.paths, this.fs, this.hash := paths, paths.fs, hash;
    }

    /** `ensure_parent_dir`, after `ensure_data_dir`. */
    method EnsureParentDir(rel: Path, f: WriteFaults) returns (r: Result<Path>)
      requires Valid() && PlainPath(rel) && rel != []
      modifies fs
      ensures Valid() && DirsAdded(old(fs.tree), fs.tree)
      ensures r.Ok? ==> r.value == paths.root + Parent(rel) && IsDir(fs.tree, r.value) && Physical(fs.tree, r.value)
      ensures forall p :: p in fs.tree && p !in old(fs.tree) ==> p <= paths.root + Parent(rel)
      ensures NoFaults(f) && OnlyDirsBelow(old(fs.tree), [], paths.root)
              && OnlyDirsBelow(old(fs.tree), paths.root, Parent(rel))
              ==> r.Ok?
      ensures r.Err? ==> r.error != Unsupported
    {
      hide Lstat, Follow, WellFormed, Physical, PlainPath;
      var root := paths.root;
      ghost var t0 := fs.tree;
      assert [] + root == root;
      RootFacts(t0);
      var made := paths.MakeMissing([], root, f.rootFailAt);
      if made.Err? { return Err(made.error); }
      ghost var t1 := fs.tree;
      PlainParent(rel);
      forall k | 1 <= k <= |Parent(rel)| && root + Parent(rel)[..k] in t1 && root + Parent(rel)[..k] !in t0
        ensures IsDir(t1, root + Parent(rel)[..k]) {}
      var made' := paths.MakeMissing(root, Parent(rel), f.parentFailAt);
      DirsAddedTransitive(t0, t1, fs.tree);
      if made'.Err? { return Err(made'.error); }
      PlainConcat(root, Parent(rel));
      ResolvePhysical(fs.tree, root + Parent(rel));
      r := Contained(fs.tree, root, root + Parent(rel));
    }

    lemma RootFacts(t: Tree)
      requires WellFormed(t)
      ensures Physical(t, []) && IsDir(t, []) && PlainPath([])
    {
    }

    lemma PlainParent(rel: Path)
      requires PlainPath(rel)
      ensures PlainPath(Parent(rel))
    {
    }

    /** `_exclusive_write`: exclusive create, fill, and on any failure unlink what was
        created.  `f.write` is how many bytes are on disk when the write fails. */
    method ExclusiveWrite(target: Path, payload: Bytes, f: WriteFaults) returns (r: Result<()>)
      requires Valid() && target != [] && PlainPath(target)
      requires IsDir(fs.tree, Parent(target)) && Physical(fs.tree, Parent(target))
      modifies fs
      ensures Valid()
      ensures r.Ok? <==> target !in old(fs.tree) && !f.open && f.write.None?
      ensures r.Ok? ==> fs.tree == old(fs.tree)[target := File(payload)]
      ensures r.Err? && !f.unlink ==> fs.tree == old(fs.tree)
      ensures r.Err? && f.unlink ==>
        fs.tree == old(fs.tree) || (target !in old(fs.tree) && IsPartial(old(fs.tree), fs.tree, target, payload))
      ensures r.Err? ==> r.error != Unsupported
    {
      hide Lstat;
      assert target == Parent(target) + [target[|target| - 1]];
      LstatPlain(fs.tree, target);
      ghost var t0 := fs.tree;
      if IsSymlink(fs.tree, target) { return Err(BadPath); }
      if target in fs.tree { return Err(Exists); }
      if f.open { return Err(BadPath); }
      var done := if f.write.Some? && f.write.value <= |payload| then f.write.value else |payload|;
      AddFile(t0, paths.root, Parent(target), target[|target| - 1], payload[..done]);
      fs.tree := fs.tree[target := File(payload[..done])];
      if f.write.Some? {
        if !f.unlink {
          fs.tree := fs.tree - {target};
        }
        return Err(Fault);
      }
      assert payload[..done] == payload;
      r := Ok(());
    }

    /** `write_bytes` up to the complete file: every check before it, the directories, the
        exclusive write. */
    method PutFile(p: PathArg, data: Bytes, id: string, f: WriteFaults) returns (r: Result<()>)
      requires Valid() && Lexical(p)
      modifies fs
      ensures Valid()
      ensures r.Ok? ==> Placed(old(fs.tree), fs.tree, paths.root, p, data)
      ensures r.Err? ==> r.error != Unsupported && (!f.unlink ==> FilesOf(fs.tree) == FilesOf(old(fs.tree)))
      ensures Writable(old(fs.tree), paths.root, p) && NoFaults(f) && Layout.IsArtifactId(id) ==> r.Ok?
      ensures FilesOf(fs.tree) - {paths.root + p.parts} == FilesOf(old(fs.tree)) - {paths.root + p.parts}
    {
      hide Lstat, Follow, WellFormed, Physical, PlainPath, Scan, Layout.IsArtifactId;
      hide FilesOf, Written, Read, RelativeTo, DirsAdded, IsPartial;
      var rel := AssertSafe(p);
      if rel.Err? { return Err(rel.error); }
      if !Layout.IsArtifactId(id) { return Err(BadPath); }
      ghost var t0, root := fs.tree, paths.root;
      PlainParts(p.parts);
      ScanMeaning(t0, root, p.parts, 0, true);
      var scan := paths.ScanNoSymlinks(p.parts, true);
      if scan.Err? { return Err(scan.error); }
      var parent := EnsureParentDir(p.parts, f);
      ghost var t1 := fs.tree;
      DirsAddedKeepsFiles(t0, t1);
      ParentClear(t0, root, p.parts);
      if parent.Err? { return Err(parent.error); }
      var target := parent.value + [p.parts[|p.parts| - 1]];
      TargetFacts(root, p.parts);
      NewTarget(t0, t1, root, p.parts);
      r := ExclusiveWrite(target, data, f);
      if r.Err? {
        PartialKeepsOthers(t0, t1, fs.tree, target, data);
      } else {
        Completed(t0, t1, root, p.parts, data);
      }
    }

    /** Where a file that was just put stands. */
    ghost predicate Placed(t: Tree, t': Tree, root: Path, p: PathArg, data: Bytes) {
      && p.parts != [] && PlainPath(p.parts)
      && Written(t, t', root + p.parts, data) && FilesOf(t') != FilesOf(t)
      && Physical(t', root + p.parts) && ParentsAreDirs(t', root, p.parts)
      && RelativeTo(t', root, PathArg(true, root + p.parts), true) == Ok(p.parts)
    }

    lemma PlacedReadsBack(t: Tree, t': Tree, root: Path, p: PathArg, ref: Ref, data: Bytes)
      requires ResolvedRoot(t', root) && Placed(t, t', root, p, data)
      requires ref.path == p.parts && ref.size == |data| && ref.sha == hash(data)
      ensures Read(t', root, hash, ref) == Ok(data)
    {
      hide Read, RelativeTo, Physical, PlainPath, ParentsAreDirs, DirsAdded, ResolvedRoot;
      WrittenReadsBack(t', root, hash, ref, data);
    }

    /** `write_bytes`.  It returns a reference to a complete, re-readable file, or leaves
        every file as it was — with two exceptions the source has: an incompatible explicit
        MIME is only rejected after the file is complete, and a partial file stays when even
        its removal fails.  With an acceptable MIME the first exception never happens, under
        any fault; without one it happens on every path that could be written. */
    method WriteBytes(p: PathArg, kind: ArtifactType, data: Bytes, id: string, mime: Option<string>, f: WriteFaults)
      returns (r: Result<Ref>)
      requires Valid() && Lexical(p)
      modifies fs
      ensures Valid()
      ensures r.Ok? ==>
        && p.parts != [] && Written(old(fs.tree), fs.tree, paths.root + p.parts, data)
        && r.value == Ref(id, kind, p.parts, hash(data), |data|, r.value.mime) && Compatible(kind, r.value.mime)
        && Read(fs.tree, paths.root, hash, r.value) == Ok(data)
        && InferMime(kind, Suffix(p.parts[|p.parts| - 1]), mime) == Ok(r.value.mime)
      ensures r.Err? && !f.unlink ==>
        (FilesOf(fs.tree) == FilesOf(old(fs.tree)) <==> r.error != Unsupported)
      ensures r == Err(Unsupported) ==>
        Written(old(fs.tree), fs.tree, paths.root + p.parts, data) && !Acceptable(kind, mime)
      ensures Acceptable(kind, mime) && r.Err? && !f.unlink ==> FilesOf(fs.tree) == FilesOf(old(fs.tree))
      ensures Writable(old(fs.tree), paths.root, p) && NoFaults(f) && Layout.IsArtifactId(id)
              ==> (r.Ok? <==> Acceptable(kind, mime)) && (r == Err(Unsupported) <==> !Acceptable(kind, mime))
                  && (r.Ok? || FilesOf(fs.tree) == FilesOf(old(fs.tree)) <==> Acceptable(kind, mime))
      ensures FilesOf(fs.tree) - {paths.root + p.parts} == FilesOf(old(fs.tree)) - {paths.root + p.parts}
    {
      hide Lstat, Follow, WellFormed, Physical, PlainPath, Scan, Layout.IsArtifactId, Compatible, ParentsAreDirs;
      hide FilesOf, Written, Read, RelativeTo, DirsAdded, InferMime, DefaultMime, Suffix, Lower, Strip, Writable, NoFaults;
      var put := PutFile(p, data, id, f);
      if put.Err? { return Err(put.error); }
      var relative := paths.RelativeToDataDir(PathArg(true, paths.root + p.parts));
      var inferred := InferMime(kind, Suffix(p.parts[|p.parts| - 1]), mime);
      if inferred.Err? { return Err(inferred.error); }
      r := Ok(Ref(id, kind, relative.value, hash(data), |data|, inferred.value));
      PlacedReadsBack(old(fs.tree), fs.tree, paths.root, p, r.value, data);
    }

    lemma PlainParts(parts: Path)
      requires parts != [] && PlainPath(parts)
      ensures AssertSafe(PathArg(false, parts)).Ok?
    {
    }

    /** Creating parents cannot create the target. */
    lemma NewTarget(t0: Tree, t1: Tree, root: Path, rel: Path)
      requires rel != [] && forall q :: q in t1 && q !in t0 ==> q <= root + Parent(rel)
      requires DirsAdded(t0, t1)
      ensures root + rel in t1 <==> root + rel in t0
    {
    }

    lemma PartialKeepsOthers(t0: Tree, t1: Tree, t2: Tree, target: Path, data: Bytes)
      requires FilesOf(t1) == FilesOf(t0)
      requires t2 == t1 || IsPartial(t1, t2, target, data)
      ensures FilesOf(t2) - {target} == FilesOf(t0) - {target}
    {
      var a, b := FilesOf(t2) - {target}, FilesOf(t1) - {target};
      assert a == b;
    }

    /** What holds once the exclusive write has returned. */
    lemma Completed(t0: Tree, t1: Tree, root: Path, rel: Path, data: Bytes)
      requires rel != [] && PlainPath(rel) && ResolvedRoot(t1, root) && DirsAdded(t0, t1) && FilesOf(t1) == FilesOf(t0)
      requires NoLinkBelow(t0, root, rel) && ParentsAreDirs(t0, root, rel)
      requires IsDir(t1, root + Parent(rel)) && Physical(t1, root + Parent(rel)) && root + rel !in t1
      ensures var target, t2 := root + rel, t1[root + rel := File(data)];
              && ResolvedRoot(t2, root) && Physical(t2, target) && ParentsAreDirs(t2, root, rel)
              && Written(t0, t2, target, data) && RelativeTo(t2, root, PathArg(true, target), true) == Ok(rel)
              && FilesOf(t2) != FilesOf(t0) && FilesOf(t2) - {target} == FilesOf(t0) - {target}
    {
      hide Lstat, Follow, WellFormed, Physical, PlainPath, Scan;
      var target, t2 := root + rel, t1[root + rel := File(data)];
      TargetFacts(root, rel);
      AddFile(t1, root, root + Parent(rel), rel[|rel| - 1], data);
      ResolvePhysical(t2, target);
      LaterScan(t0, t1, t2, root, rel);
      assert target[|root|..] == rel;
      assert target in FilesOf(t2) && target !in FilesOf(t1);
      assert FilesOf(t2) - {target} == FilesOf(t1) - {target};
    }

    lemma ParentClear(t: Tree, root: Path, rel: Path)
      requires rel != [] && ParentsAreDirs(t, root, rel)
      ensures OnlyDirsBelow(t, root, Parent(rel))
    {
      forall k | 1 <= k <= |Parent(rel)| && root + Parent(rel)[..k] in t ensures IsDir(t, root + Parent(rel)[..k]) {
        assert Parent(rel)[..k] == rel[..k];
      }
    }

    lemma TargetFacts(root: Path, rel: Path)
      requires rel != [] && PlainPath(root) && PlainPath(rel)
      ensures var target := root + Parent(rel) + [rel[|rel| - 1]];
              target == root + rel && Parent(target) == root + Parent(rel) && PlainPath(target)
    {
      PlainConcat(root, rel);
    }

    /** After the write the scan of the same path still passes. */
    lemma LaterScan(t0: Tree, t1: Tree, t2: Tree, root: Path, rel: Path)
      requires rel != [] && PlainPath(rel) && ResolvedRoot(t2, root)
      requires DirsAdded(t0, t1) && NoLinkBelow(t0, root, rel) && ParentsAreDirs(t0, root, rel)
      requires root + rel !in t1 && t2.Keys == t1.Keys + {root + rel} && t2[root + rel].File?
      requires forall p :: p in t1 ==> t2[p] == t1[p]
      ensures Scan(t2, root, rel, 0, true).Ok? && ParentsAreDirs(t2, root, rel)
    {
      hide WellFormed, Physical, PlainPath, Scan;
      forall j | 1 <= j <= |rel| && root + rel[..j] in t2
        ensures !IsLink(t2, root + rel[..j]) && (j < |rel| ==> IsDir(t2, root + rel[..j]))
      {
        var q := root + rel[..j];
        assert j < |rel| ==> q != root + rel by { assert |q| == |root| + j; }
        assert j == |rel| ==> rel[..j] == rel;
      }
      assert forall j :: 0 < j <= |rel| ==> !IsLink(t2, root + rel[..j]);
      assert ParentsAreDirs(t2, root, rel);
      ScanMeaning(t2, root, rel, 0, true);
    }

    method ReadBytes(ref: Ref) returns (r: Result<Bytes>)
      requires Valid()
      ensures r == Read(fs.tree, paths.root, hash, ref)
      ensures r.Ok? ==> |r.value| == ref.size && hash(r.value) == ref.sha
    {
      var resolved := paths.ResolveRelativePath(PathArg(false, ref.path));
      if resolved.Err? { return Err(resolved.error); }
      if IsSymlink(fs.tree, resolved.value) { return Err(Symlinked); }
      if resolved.value !in fs.tree { return Err(Integrity); }
      match fs.tree[resolved.value]
      case File(raw) =>
        if |raw| != ref.size { return Err(Integrity); }
        if hash(raw) != ref.sha { return Err(Integrity); }
        r := Ok(raw);
      case _ => r := Err(BadPath);
    }
  }

  /** The late rejection at one input: a screenshot written as plain text into an empty data
      directory raises, and its file stays. */
  method LateRejectionLeavesFile(hash: Bytes -> string) returns (fs: FileSystem, r: Result<Ref>)
    ensures fresh(fs) && r == Err(Unsupported)
    ensures [SHOT] in fs.tree && fs.tree[[SHOT]] == File([7])
  {
    EmptyRoot();
    PlainTextIsNoScreenshot();
    hide *;
    fs := new FileSystem(EmptyTree());
    var paths := new ArtifactPaths.Make(fs, []);
    var manager := new ArtifactManager(paths, hash);
    var p, faults := PathArg(false, [SHOT]), WriteFaults(-1, -1, false, None, false);
    r := manager.WriteBytes(p, Screenshot, [7], "art_12345678", Some("text/plain"), faults);
    ShotIsThere(EmptyTree(), fs.tree);
  }

  const SHOT := "shot.png"

  function EmptyTree(): Tree { map[[] := Dir] }

  lemma EmptyRoot()
    ensures WellFormed(EmptyTree()) && ResolvedRoot(EmptyTree(), [])
    ensures Lexical(PathArg(false, [SHOT])) && Writable(EmptyTree(), [], PathArg(false, [SHOT]))
    ensures NoFaults(WriteFaults(-1, -1, false, None, false))
  {
    assert [SHOT][0] == SHOT && |SHOT| == 8 && SHOT[0] == 's';
    assert forall k :: 0 <= k < 8 ==> SHOT[k] != '\0';
    hide Lstat, Follow;
  }

  lemma ShotIsThere(t: Tree, t': Tree)
    requires Written(t, t', [] + [SHOT], [7])
    ensures [SHOT] in t' && t'[[SHOT]] == File([7])
  {
    assert [] + [SHOT] == [SHOT];
  }

  lemma PlainTextIsNoScreenshot()
    ensures !Acceptable(Screenshot, Some("text/plain")) && Layout.IsArtifactId("art_12345678")
  {
    PlainTextAsGiven();
    SomeArtifactId();
    hide Lower, Strip, Layout.IsArtifactId;
    assert "text/plain"[0] == 't' && "image/png"[0] == 'i' && "image/jpeg"[0] == 'i';
  }

  lemma PlainTextAsGiven()
    ensures Lower(Strip("text/plain")) == "text/plain"
  {
    StripTrimmed("text/plain", IsWhite);
    hide Strip, StripBy;
    assert Lower("text/plain") == "text/plain";
  }

  lemma SomeArtifactId()
    ensures Layout.IsArtifactId("art_12345678")
  {
    assert forall k :: 4 < k < 12 ==> Layout.IsIdChar("art_12345678"[k]);
  }
}
