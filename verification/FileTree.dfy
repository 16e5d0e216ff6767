/** A file system tree with symbolic links, and path resolution as `os.path.realpath` and
    the kernel do it.

    A path is the sequence of its components below `/`.  Links may point anywhere: out of
    the tree below the data root, to missing files, and in loops. */
module FileTree {
  type Path = seq<string>

  newtype Byte = x: int | 0 <= x < 256
  type Bytes = seq<Byte>

  /** `Other` is any node that is not a regular file, a directory or a link. */
  datatype Node = Dir | File(bytes: Bytes) | Link(absolute: bool, target: Path) | Other

  type Tree = map<Path, Node>

  datatype Error = BadPath | Unresolvable | Escapes | Symlinked | NotADirectory | Exists
    | Integrity | Unsupported | Fault

  datatype Result<+T> = Ok(value: T) | Err(error: Error)

  /** A component that names an entry: no dots, no NUL. */
  predicate Plain(name: string) {
    name != "" && name != "." && name != ".." && '\0' !in name
  }

  predicate PlainPath(p: Path) {
    forall k :: 0 <= k < |p| ==> Plain(p[k])
  }

  function Parent(p: Path): Path {
    if p == [] then [] else p[..|p| - 1]
  }

  predicate IsDir(t: Tree, p: Path) { p in t && t[p].Dir? }

  predicate IsLink(t: Tree, p: Path) { p in t && t[p].Link? }

  /** Every node but the root lies in a directory. */
  ghost predicate WellFormed(t: Tree) {
    IsDir(t, []) && forall p :: p in t && p != [] ==> IsDir(t, Parent(p))
  }

  /** No prefix of `p`, and not `p` itself, is a link. */
  ghost predicate Physical(t: Tree, p: Path) {
    forall k :: 0 <= k <= |p| ==> !IsLink(t, p[..k])
  }

  /** No link at or above any component of `rel` below `root`. */
  ghost predicate NoLinkBelow(t: Tree, root: Path, rel: Path) {
    forall k :: 1 <= k <= |rel| ==> !IsLink(t, root + rel[..k])
  }

  // ------------------------------------------------------------------
  // Resolution
  // ------------------------------------------------------------------

  /** `ok` is false when a link loop or a NUL was met or, in a strict walk, a missing component. */
  datatype Walk = Walk(path: Path, ok: bool)

  function Links(t: Tree): set<Path> {
    set p | p in t && t[p].Link?
  }

  /** `os.path._joinrealpath`: walk `rest` from the physical `path`.  A link is replaced by
      its target, walked from its own directory; `active` holds the links whose targets are
      being walked, and meeting one of them again is a loop.  `strict` is the kernel's walk,
      which also fails on a missing or non-directory component. */
  function Follow(t: Tree, path: Path, rest: Path, active: set<Path>, strict: bool): Walk
    decreases |Links(t) - active|, |rest|
  {
    if rest == [] then Walk(path, true)
    else if strict && !IsDir(t, path) then Walk(path + rest, false)
    else if rest[0] == "" || rest[0] == "." then Follow(t, path, rest[1..], active, strict)
    else if rest[0] == ".." then Follow(t, Parent(path), rest[1..], active, strict)
    else
      var next := path + [rest[0]];
      if !Plain(rest[0]) || (strict && next !in t) then Walk(next + rest[1..], false)
      else if !IsLink(t, next) then Follow(t, next, rest[1..], active, strict)
      else if next in active then Walk(next + rest[1..], false)
      else
        assert next in Links(t) - active;
        assert Links(t) - (active + {next}) == (Links(t) - active) - {next};
        var inner := Follow(t, if t[next].absolute then [] else path, t[next].target, active + {next}, strict);
        if !inner.ok then Walk(inner.path + rest[1..], false)
        else Follow(t, inner.path, rest[1..], active, strict)
  }

  /** `Path.resolve()` of an absolute path: an embedded NUL and a link loop raise. */
  function Resolve(t: Tree, p: Path): Result<Path> {
    var w := Follow(t, [], p, {}, false);
    if w.ok then Ok(w.path) else Err(Unresolvable)
  }

  /** `lstat`: the last component is not followed.  `Err` stands for any `OSError`. */
  function Lstat(t: Tree, p: Path): Result<Node> {
    var d := Follow(t, [], Parent(p), {}, true);
    if !d.ok || !IsDir(t, d.path) then Err(Unresolvable)
    else if p == [] then Ok(Dir)
    else
      var last := p[|p| - 1];
      if last == ".." || last == "." || last == "" then Ok(Dir)
      else if Plain(last) && d.path + [last] in t then Ok(t[d.path + [last]])
      else Err(Unresolvable)
  }

  /** `Path.is_symlink()`, false on any error. */
  predicate IsSymlink(t: Tree, p: Path) {
    Lstat(t, p).Ok? && Lstat(t, p).value.Link?
  }

  /** `p.exists() and not p.is_dir()`, for a `p` that is not a link. */
  predicate IsNonDirectory(t: Tree, p: Path) {
    Lstat(t, p).Ok? && !Lstat(t, p).value.Dir?
  }

  // ------------------------------------------------------------------
  // What resolution yields
  // ------------------------------------------------------------------

  lemma PhysicalStep(t: Tree, p: Path, name: string)
    requires Physical(t, p) && !IsLink(t, p + [name])
    ensures Physical(t, p + [name])
  {
    var q := p + [name];
    forall k | 0 <= k <= |q| ensures !IsLink(t, q[..k]) {
      if k <= |p| { assert q[..k] == p[..k]; } else { assert q[..k] == q; }
    }
  }

  lemma PhysicalPrefix(t: Tree, p: Path, n: nat)
    requires Physical(t, p) && n <= |p|
    ensures Physical(t, p[..n])
  {
    forall k | 0 <= k <= n ensures !IsLink(t, p[..n][..k]) { assert p[..n][..k] == p[..k]; }
  }

  /** For every tree, whatever its links: a walk that ends well ends at a path with no link
      and no dots in it. */
  lemma {:induction false} FollowEndsPhysical(t: Tree, path: Path, rest: Path, active: set<Path>, strict: bool)
    requires Physical(t, path) && PlainPath(path) && !IsLink(t, [])
    ensures var w := Follow(t, path, rest, active, strict);
            w.ok ==> Physical(t, w.path) && PlainPath(w.path)
    decreases |Links(t) - active|, |rest|
  {
    if rest == [] || (strict && !IsDir(t, path)) {
    } else if rest[0] == "" || rest[0] == "." {
      FollowEndsPhysical(t, path, rest[1..], active, strict);
    } else if rest[0] == ".." {
      if path != [] { PhysicalPrefix(t, path, |path| - 1); }
      FollowEndsPhysical(t, Parent(path), rest[1..], active, strict);
    } else {
      var next := path + [rest[0]];
      if !Plain(rest[0]) || (strict && next !in t) {
      } else if !IsLink(t, next) {
        PhysicalStep(t, path, rest[0]);
        FollowEndsPhysical(t, next, rest[1..], active, strict);
      } else if next !in active {
        assert next in Links(t) - active;
        assert Links(t) - (active + {next}) == (Links(t) - active) - {next};
        var base: Path := if t[next].absolute then [] else path;
        FollowEndsPhysical(t, base, t[next].target, active + {next}, strict);
        var inner := Follow(t, base, t[next].target, active + {next}, strict);
        if inner.ok { FollowEndsPhysical(t, inner.path, rest[1..], active, strict); }
      }
    }
  }

  /** A walk along plain components with no link on the way goes nowhere else. */
  lemma {:induction false} FollowPlain(t: Tree, path: Path, rest: Path, active: set<Path>)
    requires PlainPath(rest) && NoLinkBelow(t, path, rest)
    ensures Follow(t, path, rest, active, false) == Walk(path + rest, true)
    decreases |rest|
  {
    if rest != [] {
      assert rest[..1] == [rest[0]];
      var next := path + [rest[0]];
      forall k | 1 <= k <= |rest[1..]| ensures !IsLink(t, next + rest[1..][..k]) {
        assert next + rest[1..][..k] == path + rest[..k + 1];
      }
      FollowPlain(t, next, rest[1..], active);
      assert next + rest[1..] == path + rest;
    } else {
      assert path + rest == path;
    }
  }

  /** The same for the kernel's walk, when every component exists. */
  lemma {:induction false} FollowStrict(t: Tree, path: Path, rest: Path, active: set<Path>)
    requires WellFormed(t) && PlainPath(rest) && NoLinkBelow(t, path, rest)
    ensures var w := Follow(t, path, rest, active, true);
            w.path == path + rest && (path + rest in t ==> w.ok) && (w.ok && rest != [] ==> path + rest in t)
    decreases |rest|
  {
    if rest != [] {
      assert rest[..1] == [rest[0]];
      var next := path + [rest[0]];
      assert next + rest[1..] == path + rest;
      forall k | 1 <= k <= |rest[1..]| ensures !IsLink(t, next + rest[1..][..k]) {
        assert next + rest[1..][..k] == path + rest[..k + 1];
      }
      if path + rest in t {
        PrefixesExist(t, path + rest, |path|);
        PrefixesExist(t, path + rest, |path| + 1);
        assert (path + rest)[..|path|] == path && (path + rest)[..|path| + 1] == next;
      }
      FollowStrict(t, next, rest[1..], active);
    } else {
      assert path + rest == path;
    }
  }

  lemma {:induction false} PrefixesExist(t: Tree, p: Path, n: nat)
    requires WellFormed(t) && p in t && n <= |p|
    ensures p[..n] in t && (n < |p| ==> IsDir(t, p[..n]))
    decreases |p|
  {
    if n < |p| {
      PrefixesExist(t, Parent(p), n);
      assert Parent(p)[..n] == p[..n];
      if n == |p| - 1 { assert p[..n] == Parent(p); }
    } else {
      assert p[..n] == p;
    }
  }

  /** Below a physical path, `lstat` is a look-up in the tree. */
  lemma LstatPlain(t: Tree, p: Path)
    requires WellFormed(t) && PlainPath(p) && p != [] && Physical(t, Parent(p))
    ensures Lstat(t, p) == if p in t then Ok(t[p]) else Err(Unresolvable)
  {
    var d := Parent(p);
    forall k | 1 <= k <= |d| ensures !IsLink(t, [] + d[..k]) { assert [] + d[..k] == d[..k]; }
    FollowStrict(t, [], d, {});
    hide Follow;
    assert [] + d == d && d + [p[|p| - 1]] == p;
  }

  lemma ResolvePhysical(t: Tree, p: Path)
    requires PlainPath(p) && Physical(t, p)
    ensures Resolve(t, p) == Ok(p)
  {
    forall k | 1 <= k <= |p| ensures !IsLink(t, [] + p[..k]) { assert [] + p[..k] == p[..k]; }
    FollowPlain(t, [], p, {});
    assert [] + p == p;
  }

  /** For every tree and every path: a resolution that does not raise ends at a path with no
      link, no dots and no NUL in it, and resolving again changes nothing. */
  lemma ResolveIsPhysical(t: Tree, p: Path)
    requires WellFormed(t) && Resolve(t, p).Ok?
    ensures var q := Resolve(t, p).value;
            Physical(t, q) && PlainPath(q) && Resolve(t, q) == Ok(q)
  {
    FollowEndsPhysical(t, [], p, {}, false);
    ResolvePhysical(t, Resolve(t, p).value);
  }

  // ------------------------------------------------------------------
  // Resolution by its equations
  // ------------------------------------------------------------------

  /** A walk along `a` and then `b` goes on along `b` where the walk along `a` ended. */
  lemma {:induction false} FollowAppend(t: Tree, path: Path, a: Path, b: Path, active: set<Path>)
    ensures var w, whole := Follow(t, path, a, active, false), Follow(t, path, a + b, active, false);
            if w.ok then whole == Follow(t, w.path, b, active, false) else !whole.ok
    decreases |Links(t) - active|, |a|
  {
    if a == [] {
      assert a + b == b;
    } else {
      assert (a + b)[0] == a[0] && (a + b)[1..] == a[1..] + b;
      var next := path + [a[0]];
      if a[0] == "" || a[0] == "." {
        FollowAppend(t, path, a[1..], b, active);
      } else if a[0] == ".." {
        FollowAppend(t, Parent(path), a[1..], b, active);
      } else if !Plain(a[0]) {
      } else if !IsLink(t, next) {
        FollowAppend(t, next, a[1..], b, active);
      } else if next !in active {
        assert Links(t) - (active + {next}) == (Links(t) - active) - {next};
        var inner := Follow(t, if t[next].absolute then [] else path, t[next].target, active + {next}, false);
        FollowAppend(t, inner.path, a[1..], b, active);
      }
    }
  }

  /** With fewer links being walked a walk that ended well ends the same way. */
  lemma {:induction false} FewerActive(t: Tree, path: Path, rest: Path, active: set<Path>, fewer: set<Path>)
    requires fewer <= active && Follow(t, path, rest, active, false).ok
    ensures Follow(t, path, rest, fewer, false) == Follow(t, path, rest, active, false)
    decreases |Links(t) - active|, |rest|
  {
    if rest != [] {
      var next := path + [rest[0]];
      if rest[0] == "" || rest[0] == "." {
        FewerActive(t, path, rest[1..], active, fewer);
      } else if rest[0] == ".." {
        FewerActive(t, Parent(path), rest[1..], active, fewer);
      } else if !IsLink(t, next) {
        FewerActive(t, next, rest[1..], active, fewer);
      } else {
        assert next in Links(t) - active;
        assert Links(t) - (active + {next}) == (Links(t) - active) - {next};
        var base: Path := if t[next].absolute then [] else path;
        FewerActive(t, base, t[next].target, active + {next}, fewer + {next});
        FewerActive(t, Follow(t, base, t[next].target, active + {next}, false).path, rest[1..], active, fewer);
      }
    }
  }

  /** Where the target of a link is walked from. */
  function BaseOf(t: Tree, path: Path, next: Path): Path
    requires IsLink(t, next)
  {
    if t[next].absolute then [] else path
  }

  /** Forbidding one more link, `q + [n]`, does not matter to a walk that ends well, unless it
      meets that link, and then the link's target can be walked without meeting it again. */
  lemma {:induction false} MoreActive(t: Tree, path: Path, rest: Path, active: set<Path>, q: Path, n: string)
    requires IsLink(t, q + [n]) && q + [n] !in active && Follow(t, path, rest, active, false).ok
    ensures var link := q + [n];
            || Follow(t, path, rest, active + {link}, false) == Follow(t, path, rest, active, false)
            || Follow(t, BaseOf(t, q, link), t[link].target, {link}, false).ok
    decreases |Links(t) - active|, |rest|
  {
    if rest != [] {
      var link, next := q + [n], path + [rest[0]];
      if rest[0] == "" || rest[0] == "." {
        MoreActive(t, path, rest[1..], active, q, n);
      } else if rest[0] == ".." {
        MoreActive(t, Parent(path), rest[1..], active, q, n);
      } else if !IsLink(t, next) {
        MoreActive(t, next, rest[1..], active, q, n);
      } else {
        assert next in Links(t) - active;
        assert Links(t) - (active + {next}) == (Links(t) - active) - {next};
        var base: Path := BaseOf(t, path, next);
        if next == link {
          assert path == next[..|next| - 1] == q;
          FewerActive(t, base, t[next].target, active + {next}, {link});
        } else {
          MoreActive(t, base, t[next].target, active + {next}, q, n);
          MoreActive(t, Follow(t, base, t[next].target, active + {next}, false).path, rest[1..], active, q, n);
          assert active + {next} + {link} == active + {link} + {next};
        }
      }
    }
  }

  /** A link stands for its target, walked from its own directory or from the top. */
  lemma FollowLink(t: Tree, q: Path, n: string, rest: Path)
    requires Plain(n) && IsLink(t, q + [n])
    ensures var link := q + [n];
            var w := Follow(t, q, [n] + rest, {}, false);
            var w' := Follow(t, BaseOf(t, q, link), t[link].target + rest, {}, false);
            w.ok == w'.ok && (w.ok ==> w == w')
  {
    var link, none: set<Path> := q + [n], {};
    var base, target := BaseOf(t, q, link), t[link].target;
    FollowAppend(t, base, target, rest, {});
    assert ([n] + rest)[1..] == rest && none + {link} == {link};
    var inner := Follow(t, base, target, {link}, false);
    assert var w := Follow(t, q, [n] + rest, {}, false);
           if inner.ok then w == Follow(t, inner.path, rest, {}, false) else !w.ok;
    if inner.ok { FewerActive(t, base, target, {link}, {}); }
    if Follow(t, base, target, {}, false).ok { MoreActive(t, base, target, {}, q, n); }
    hide Follow;
  }

  /** From a physical path the walk starts there. */
  lemma ResolveFrom(t: Tree, q: Path, rest: Path)
    requires Physical(t, q) && PlainPath(q)
    ensures var w := Follow(t, q, rest, {}, false);
            Resolve(t, q + rest) == if w.ok then Ok(w.path) else Err(Unresolvable)
  {
    forall k | 1 <= k <= |q| ensures !IsLink(t, [] + q[..k]) { assert [] + q[..k] == q[..k]; }
    FollowPlain(t, [], q, {});
    assert [] + q == q;
    FollowAppend(t, [], q, rest, {});
    hide Follow;
  }

  /** `Path.resolve()` by its equations, for every tree: a path without links stays, an empty
      component or `.` is dropped, `..` takes the parent, a link is replaced by its target,
      seen from the link's directory if it is relative, and a NUL raises. */
  lemma ResolveEquations(t: Tree, q: Path, n: string, rest: Path)
    requires Physical(t, q) && PlainPath(q) && !IsLink(t, [])
    ensures Resolve(t, q) == Ok(q)
    ensures n == "" || n == "." ==> Resolve(t, q + ([n] + rest)) == Resolve(t, q + rest)
    ensures n == ".." ==> Resolve(t, q + ([n] + rest)) == Resolve(t, Parent(q) + rest)
    ensures '\0' in n ==> Resolve(t, q + ([n] + rest)) == Err(Unresolvable)
    ensures Plain(n) && IsLink(t, q + [n]) ==>
              var link := t[q + [n]];
              Resolve(t, q + ([n] + rest)) == Resolve(t, (if link.absolute then [] else q) + (link.target + rest))
  {
    ResolvePhysical(t, q);
    ResolveFrom(t, q, [n] + rest);
    ResolveFrom(t, q, rest);
    if q != [] { PhysicalPrefix(t, q, |q| - 1); }
    ResolveFrom(t, Parent(q), rest);
    FollowFirst(t, q, n, rest);
    hide Follow, Resolve;
    if Plain(n) && IsLink(t, q + [n]) {
      var base := BaseOf(t, q, q + [n]);
      FollowLink(t, q, n, rest);
      ResolveFrom(t, base, t[q + [n]].target + rest);
    }
  }

  lemma FollowFirst(t: Tree, q: Path, n: string, rest: Path)
    ensures var w := Follow(t, q, [n] + rest, {}, false);
            && (n == "" || n == "." ==> w == Follow(t, q, rest, {}, false))
            && (n == ".." ==> w == Follow(t, Parent(q), rest, {}, false))
            && ('\0' in n ==> !w.ok)
  {
    assert ([n] + rest)[1..] == rest;
  }
}
