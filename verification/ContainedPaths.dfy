/** The containment authorities: `ArtifactPaths` (artifacts/paths.py) and the path half of
    `SessionPaths` (sessions/paths.py).

    The functions say what each operation returns on a given tree, branch by branch; the
    classes below do it with the source's loops. */
module ContainedPaths {
  import opened FileTree

  /** A `pathlib` path: it never holds empty or `.` components, but may hold `..` or NUL. */
  datatype PathArg = PathArg(absolute: bool, parts: Path)

  predicate Lexical(p: PathArg) {
    forall k :: 0 <= k < |p.parts| ==> p.parts[k] != "" && p.parts[k] != "."
  }

  /** `assert_safe_relative_path`. */
  function AssertSafe(p: PathArg): Result<Path> {
    if p.absolute || p.parts == [] || !PlainPath(p.parts) then Err(BadPath) else Ok(p.parts)
  }

  /** The symlink scan from component `k` on.  `dirs` is the artifact layer's extra check
      that a parent component is a directory.  The target itself is always checked, whatever
      `include_target` says. */
  function Scan(t: Tree, root: Path, rel: Path, k: nat, dirs: bool): (r: Result<()>)
    requires k <= |rel|
    ensures r.Err? ==> r.error == Symlinked || (dirs && r.error == NotADirectory)
    decreases |rel| - k
  {
    if k == |rel| then Ok(()) else
    var current := root + rel[..k + 1];
    if IsSymlink(t, current) then Err(Symlinked)
    else if dirs && k + 1 < |rel| && IsNonDirectory(t, current) then Err(NotADirectory)
    else Scan(t, root, rel, k + 1, dirs)
  }

  function Contained(t: Tree, root: Path, candidate: Path): Result<Path> {
    var r := Resolve(t, candidate);
    if r.Ok? && !(root <= r.value) then Err(Escapes) else r
  }

  /** `ArtifactPaths.resolve_relative_path`: check the shape, scan, then resolve. */
  function ResolveArtifact(t: Tree, root: Path, p: PathArg): Result<Path> {
    var rel := AssertSafe(p);
    if rel.Err? then rel else
    var scan := Scan(t, root, rel.value, 0, true);
    if scan.Err? then Err(scan.error) else Contained(t, root, root + rel.value)
  }

  /** `SessionPaths.resolve_relative_path`: resolve first, then scan. */
  function ResolveSession(t: Tree, root: Path, p: PathArg): Result<Path> {
    if p.absolute || ".." in p.parts then Err(BadPath) else
    var resolved := Contained(t, root, root + p.parts);
    if resolved.Err? then resolved else
    var scan := Scan(t, root, p.parts, 0, false);
    if scan.Err? then Err(scan.error) else resolved
  }

  /** `relative_to_data_dir` of both classes. */
  function RelativeTo(t: Tree, root: Path, p: PathArg, dirs: bool): Result<Path> {
    var target := if p.absolute then p.parts else root + p.parts;
    var resolved := Contained(t, root, target);
    if resolved.Err? then resolved
    else if !(root <= target) then Err(Escapes)
    else
      var scan := Scan(t, root, target[|root|..], 0, dirs);
      if scan.Err? then Err(scan.error) else Ok(resolved.value[|root|..])
  }

  /** What the constructor gets from `data_dir.resolve()`. */
  ghost predicate ResolvedRoot(t: Tree, root: Path) {
    WellFormed(t) && Physical(t, root) && PlainPath(root)
  }

  /** No parent component below the root exists as anything but a directory. */
  ghost predicate ParentsAreDirs(t: Tree, root: Path, rel: Path) {
    forall k :: 1 <= k < |rel| && root + rel[..k] in t ==> IsDir(t, root + rel[..k])
  }

  // ------------------------------------------------------------------
  // For every tree
  // ------------------------------------------------------------------

  lemma PlainConcat(a: Path, b: Path)
    ensures PlainPath(a + b) <==> PlainPath(a) && PlainPath(b)
  {
    assert forall k :: 0 <= k < |a| ==> (a + b)[k] == a[k];
    assert forall k :: 0 <= k < |b| ==> (a + b)[|a| + k] == b[k];
  }

  lemma PlainExtend(a: Path, rel: Path, k: nat)
    requires PlainPath(a) && PlainPath(rel) && k < |rel|
    ensures PlainPath(a + [rel[k]])
  {
  }

  lemma PhysicalBelow(t: Tree, root: Path, rel: Path)
    requires Physical(t, root) && NoLinkBelow(t, root, rel)
    ensures Physical(t, root + rel)
  {
    var p := root + rel;
    forall k | 0 <= k <= |p| ensures !IsLink(t, p[..k]) {
      if k <= |root| { assert p[..k] == root[..k]; } else { assert p[..k] == root + rel[..k - |root|]; }
    }
  }

  /** The scan passes exactly when there is no link below the root on the way, and (for
      artifacts) no parent component is a file. */
  lemma {:induction false} ScanMeaning(t: Tree, root: Path, rel: Path, k: nat, dirs: bool)
    requires ResolvedRoot(t, root) && PlainPath(rel) && k <= |rel|
    requires forall j :: 1 <= j <= k ==> !IsLink(t, root + rel[..j])
    ensures Scan(t, root, rel, k, dirs).Ok? <==>
            && (forall j :: k < j <= |rel| ==> !IsLink(t, root + rel[..j]))
            && (dirs ==> forall j :: k < j < |rel| && root + rel[..j] in t ==> IsDir(t, root + rel[..j]))
    decreases |rel| - k
  {
    hide Lstat, Physical, PlainPath, WellFormed;
    if k < |rel| {
      LstatBelow(t, root, rel, k);
      if !IsLink(t, root + rel[..k + 1]) { ScanMeaning(t, root, rel, k + 1, dirs); }
    }
  }

  lemma LstatBelow(t: Tree, root: Path, rel: Path, k: nat)
    requires ResolvedRoot(t, root) && PlainPath(rel) && k < |rel|
    requires forall j :: 1 <= j <= k ==> !IsLink(t, root + rel[..j])
    ensures var current := root + rel[..k + 1];
            Lstat(t, current) == if current in t then Ok(t[current]) else Err(Unresolvable)
  {
    hide Lstat;
    var current := root + rel[..k + 1];
    assert Parent(current) == root + rel[..k];
    forall j | 1 <= j <= |rel[..k]| ensures !IsLink(t, root + rel[..k][..j]) { assert rel[..k][..j] == rel[..j]; }
    PhysicalBelow(t, root, rel[..k]);
    PlainConcat(root, rel[..k + 1]);
    LstatPlain(t, current);
  }

  /** `resolve_relative_path` on every tree, links anywhere: it returns only the root joined
      with the given components, link-free and inside the root; and it returns exactly when
      the components are plain and none of them below the root is a link. */
  lemma ResolveExact(t: Tree, root: Path, p: PathArg)
    requires ResolvedRoot(t, root) && Lexical(p)
    ensures var r := ResolveArtifact(t, root, p);
            && (r.Ok? <==> !p.absolute && p.parts != [] && PlainPath(p.parts)
                           && NoLinkBelow(t, root, p.parts) && ParentsAreDirs(t, root, p.parts))
            && (r.Ok? ==> r.value == root + p.parts && Physical(t, r.value))
    ensures var r := ResolveSession(t, root, p);
            && (r.Ok? <==> !p.absolute && PlainPath(p.parts) && NoLinkBelow(t, root, p.parts))
            && (r.Ok? ==> r.value == root + p.parts && Physical(t, r.value))
  {
    hide Follow, Lstat, Scan;
    var rel := p.parts;
    PlainConcat(root, rel);
    if PlainPath(rel) {
      ScanMeaning(t, root, rel, 0, true);
      ScanMeaning(t, root, rel, 0, false);
      assert NoLinkBelow(t, root, rel) <==> forall j :: 0 < j <= |rel| ==> !IsLink(t, root + rel[..j]);
      if NoLinkBelow(t, root, rel) {
        PhysicalBelow(t, root, rel);
        ResolvePhysical(t, root + rel);
      }
    } else if ".." !in rel {
      NulFails(t, [], root + rel, {}, false);
    }
  }

  /** A NUL anywhere makes the walk fail. */
  lemma {:induction false} NulFails(t: Tree, path: Path, rest: Path, active: set<Path>, strict: bool)
    requires exists k :: 0 <= k < |rest| && '\0' in rest[k]
    ensures !Follow(t, path, rest, active, strict).ok
    decreases |Links(t) - active|, |rest|
  {
    var k :| 0 <= k < |rest| && '\0' in rest[k];
    if '\0' !in rest[0] {
      assert '\0' in rest[1..][k - 1];
      var next := path + [rest[0]];
      if strict && !IsDir(t, path) {
      } else if rest[0] == "" || rest[0] == "." {
        NulFails(t, path, rest[1..], active, strict);
      } else if rest[0] == ".." {
        NulFails(t, Parent(path), rest[1..], active, strict);
      } else if strict && next !in t {
      } else if !IsLink(t, next) {
        NulFails(t, next, rest[1..], active, strict);
      } else if next !in active {
        assert next in Links(t) - active;
        assert Links(t) - (active + {next}) == (Links(t) - active) - {next};
        var inner := Follow(t, if t[next].absolute then [] else path, t[next].target, active + {next}, strict);
        NulFails(t, inner.path, rest[1..], active, strict);
      }
    }
  }

  /** `relative_to_data_dir` inverts both resolvers. */
  lemma RelativeInverts(t: Tree, root: Path, p: PathArg)
    requires ResolvedRoot(t, root) && Lexical(p)
    ensures var r := ResolveArtifact(t, root, p);
            r.Ok? ==> RelativeTo(t, root, PathArg(true, r.value), true) == Ok(p.parts)
    ensures var r := ResolveSession(t, root, p);
            r.Ok? ==> RelativeTo(t, root, PathArg(true, r.value), false) == Ok(p.parts)
  {
    ResolveExact(t, root, p);
    hide Follow, Lstat, Scan;
    var q := root + p.parts;
    assert q[|root|..] == p.parts;
    if ResolveSession(t, root, p).Ok? {
      ScanMeaning(t, root, p.parts, 0, false);
      PlainConcat(root, p.parts);
      ResolvePhysical(t, q);
    }
    if ResolveArtifact(t, root, p).Ok? {
      ScanMeaning(t, root, p.parts, 0, true);
      PlainConcat(root, p.parts);
      ResolvePhysical(t, q);
    }
  }

  /** For arguments without `..` or NUL, exactly when it returns and what: the argument lies
      below the root by its components, with no link and, for artifacts, no file on the way. */
  lemma RelativeExact(t: Tree, root: Path, p: PathArg, dirs: bool)
    requires ResolvedRoot(t, root) && PlainPath(p.parts)
    ensures var target, r := if p.absolute then p.parts else root + p.parts, RelativeTo(t, root, p, dirs);
            if root <= target && NoLinkBelow(t, root, target[|root|..])
               && (dirs ==> ParentsAreDirs(t, root, target[|root|..]))
            then r == Ok(target[|root|..]) else r.Err?
  {
    var target := if p.absolute then p.parts else root + p.parts;
    PlainConcat(root, p.parts);
    hide Follow, Lstat, Scan, Resolve;
    if root <= target {
      var rel := target[|root|..];
      assert target == root + rel;
      PlainConcat(root, rel);
      ScanMeaning(t, root, rel, 0, dirs);
      assert NoLinkBelow(t, root, rel) <==> forall j :: 0 < j <= |rel| ==> !IsLink(t, root + rel[..j]);
      if NoLinkBelow(t, root, rel) {
        PhysicalBelow(t, root, rel);
        ResolvePhysical(t, target);
      }
    }
  }

  /** Containment for every argument, `..` included: what `relative_to_data_dir` returns,
      joined to the root, is where the argument resolves to, and has no link in it. */
  lemma RelativeIsContained(t: Tree, root: Path, p: PathArg, dirs: bool)
    requires ResolvedRoot(t, root) && RelativeTo(t, root, p, dirs).Ok?
    ensures var rel := RelativeTo(t, root, p, dirs).value;
            && Resolve(t, if p.absolute then p.parts else root + p.parts) == Ok(root + rel)
            && Physical(t, root + rel) && PlainPath(rel)
  {
    var target := if p.absolute then p.parts else root + p.parts;
    ResolveIsPhysical(t, target);
    var q := Resolve(t, target).value;
    var rel := q[|root|..];
    assert root + rel == q;
    PlainConcat(root, rel);
  }

  // ------------------------------------------------------------------
  // The classes
  // ------------------------------------------------------------------

  class FileSystem {
    var tree: Tree

    constructor (tree: Tree)
      ensures this.tree == tree
    {
      this.tree := tree;
    }
  }

  /** Only directories were added. */
  ghost predicate DirsAdded(t: Tree, t': Tree) {
    (forall p :: p in t ==> p in t' && t'[p] == t[p]) && (forall p :: p in t' && p !in t ==> t'[p].Dir?)
  }

  lemma DirsAddedKeepsPhysical(t: Tree, t': Tree, p: Path)
    requires DirsAdded(t, t') && Physical(t, p)
    ensures Physical(t', p)
  {
  }

  /** Whatever exists on the way from `base` along `rel` is a directory. */
  ghost predicate OnlyDirsBelow(t: Tree, base: Path, rel: Path) {
    forall k :: 1 <= k <= |rel| && base + rel[..k] in t ==> IsDir(t, base + rel[..k])
  }

  lemma AddDirectory(t: Tree, parent: Path, name: string)
    requires WellFormed(t) && Physical(t, parent) && IsDir(t, parent) && parent + [name] !in t
    ensures var t' := t[parent + [name] := Dir];
            WellFormed(t') && DirsAdded(t, t') && Physical(t', parent + [name])
  {
    var t' := t[parent + [name] := Dir];
    assert Parent(parent + [name]) == parent;
    DirsAddedKeepsPhysical(t, t', parent);
    PhysicalStep(t', parent, name);
  }

  class ArtifactPaths {
    const fs: FileSystem
    const root: Path

    ghost predicate Valid()
      reads fs
    {
      ResolvedRoot(fs.tree, root)
    }

    constructor Make(fs: FileSystem, root: Path)
      requires ResolvedRoot(fs.tree, root)
      ensures Valid() && this.fs == fs && this.root == root
    {
      this.fs, this.root := fs, root;
    }

    /** `ArtifactPaths(data_dir)`: the root is resolved once; a link loop raises. */
    static method Open(fs: FileSystem, dataDir: Path) returns (r: Result<ArtifactPaths>)
      requires WellFormed(fs.tree)
      ensures r.Ok? <==> Resolve(fs.tree, dataDir).Ok?
      ensures r.Ok? ==> r.value.Valid() && r.value.fs == fs && Ok(r.value.root) == Resolve(fs.tree, dataDir)
    {
      var resolved := Resolve(fs.tree, dataDir);
      if resolved.Err? { return Err(resolved.error); }
      ResolveIsPhysical(fs.tree, dataDir);
      var paths := new ArtifactPaths.Make(fs, resolved.value);
      r := Ok(paths);
    }

    /** The scan loop; `includeTarget` is accepted and ignored, as in the source. */
    method ScanNoSymlinks(relative: Path, includeTarget: bool) returns (r: Result<()>)
      ensures r == Scan(fs.tree, root, relative, 0, true)
    {
      var current := root;
      for index := 0 to |relative|
        invariant current == root + relative[..index]
        invariant Scan(fs.tree, root, relative, 0, true) == Scan(fs.tree, root, relative, index, true)
      {
        assert relative[..index + 1] == relative[..index] + [relative[index]];
        current := current + [relative[index]];
        assert current == root + relative[..index + 1];
        if IsSymlink(fs.tree, current) { return Err(Symlinked); }
        if index != |relative| - 1 && IsNonDirectory(fs.tree, current) { return Err(NotADirectory); }
      }
      r := Ok(());
    }

    method ResolveRelativePath(p: PathArg) returns (r: Result<Path>)
      ensures r == ResolveArtifact(fs.tree, root, p)
    {
      var rel := AssertSafe(p);
      if rel.Err? { return rel; }
      var scan := ScanNoSymlinks(rel.value, true);
      if scan.Err? { return Err(scan.error); }
      r := Contained(fs.tree, root, root + rel.value);
    }

    method RelativeToDataDir(p: PathArg) returns (r: Result<Path>)
      ensures r == RelativeTo(fs.tree, root, p, true)
    {
      var target := if p.absolute then p.parts else root + p.parts;
      var resolved := Contained(fs.tree, root, target);
      if resolved.Err? { return resolved; }
      if !(root <= target) { return Err(Escapes); }
      var scan := ScanNoSymlinks(target[|root|..], false);
      if scan.Err? { return Err(scan.error); }
      r := Ok(resolved.value[|root|..]);
    }

    /** `mkdir` of the components of `rel` below `base` that are missing, in order; the one
        at `failAt` raises.  Used for the root (`mkdir(parents=True)`) and for parents. */
    method MakeMissing(base: Path, rel: Path, failAt: int) returns (r: Result<()>)
      requires Valid() && Physical(fs.tree, base) && IsDir(fs.tree, base) && PlainPath(base) && PlainPath(rel)
      modifies fs
      ensures Valid() && DirsAdded(old(fs.tree), fs.tree)
      ensures r.Ok? ==> IsDir(fs.tree, base + rel) && Physical(fs.tree, base + rel)
      ensures failAt < 0 && OnlyDirsBelow(old(fs.tree), base, rel) ==> r.Ok?
      ensures r.Err? ==> r.error in {Symlinked, NotADirectory, Fault}
      ensures forall p :: p in fs.tree && p !in old(fs.tree) ==> p <= base + rel
    {
      hide Lstat, WellFormed, Physical, PlainPath;
      var current := base;
      ghost var t0 := fs.tree;
      assert base + rel[..0] == base;
      for k := 0 to |rel|
        invariant current == base + rel[..k]
        invariant Valid() && DirsAdded(t0, fs.tree)
        invariant IsDir(fs.tree, current) && Physical(fs.tree, current) && PlainPath(current)
        invariant forall p :: p in fs.tree && p !in t0 ==> p <= current
      {
        var parent := current;
        current := current + [rel[k]];
        assert current == base + rel[..k + 1] && Parent(current) == parent;
        PlainExtend(parent, rel, k);
        LstatPlain(fs.tree, current);
        if IsSymlink(fs.tree, current) { return Err(Symlinked); }
        if current in fs.tree {
          if !IsDir(fs.tree, current) { return Err(NotADirectory); }
          PhysicalStep(fs.tree, parent, rel[k]);
        } else {
          if failAt == k { return Err(Fault); }
          AddDirectory(fs.tree, parent, rel[k]);
          DirsAddedKeepsPhysical(fs.tree, fs.tree[current := Dir], root);
          fs.tree := fs.tree[current := Dir];
        }
      }
      assert rel[..|rel|] == rel;
      r := Ok(());
    }
  }

  /** The methods of `SessionPaths`, which scan without the directory check. */
  class SessionPaths {
    const fs: FileSystem
    const root: Path

    constructor (fs: FileSystem, root: Path)
      ensures this.fs == fs && this.root == root
    {
      this.fs, this.root := fs, root;
    }

    method ScanSymlinks(relative: Path) returns (r: Result<()>)
      ensures r == Scan(fs.tree, root, relative, 0, false)
    {
      var current := root;
      for index := 0 to |relative|
        invariant current == root + relative[..index]
        invariant Scan(fs.tree, root, relative, 0, false) == Scan(fs.tree, root, relative, index, false)
      {
        assert relative[..index + 1] == relative[..index] + [relative[index]];
        current := current + [relative[index]];
        assert current == root + relative[..index + 1];
        if IsSymlink(fs.tree, current) { return Err(Symlinked); }
      }
      r := Ok(());
    }

    method ResolveRelativePath(p: PathArg) returns (r: Result<Path>)
      ensures r == ResolveSession(fs.tree, root, p)
    {
      if p.absolute || ".." in p.parts { return Err(BadPath); }
      var resolved := Contained(fs.tree, root, root + p.parts);
      if resolved.Err? { return resolved; }
      var scan := ScanSymlinks(p.parts);
      r := if scan.Err? then Err(scan.error) else resolved;
    }

    method RelativeToDataDir(p: PathArg) returns (r: Result<Path>)
      ensures r == RelativeTo(fs.tree, root, p, false)
    {
      var target := if p.absolute then p.parts else root + p.parts;
      var resolved := Contained(fs.tree, root, target);
      if resolved.Err? { return resolved; }
      if !(root <= target) { return Err(Escapes); }
      var scan := ScanSymlinks(target[|root|..]);
      r := if scan.Err? then Err(scan.error) else Ok(resolved.value[|root|..]);
    }
  }
}
