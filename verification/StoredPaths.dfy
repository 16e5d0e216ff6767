/** Paths as the rows hold them (persistence/serialization.py): an artifact's relative path
    and a profile's directory, as text and back. */
module StoredPaths {
  import opened Text
  import opened FileTree
  import opened ContainedPaths

  /** What `pathlib` guarantees of every component. */
  predicate Component(name: string) { name != "" && name != "." && '/' !in name }

  predicate Components(parts: Path) { forall i :: 0 <= i < |parts| ==> Component(parts[i]) }

  function Significant(pieces: seq<string>): Path {
    if pieces == [] then []
    else (if pieces[0] == "" || pieces[0] == "." then [] else [pieces[0]]) + Significant(pieces[1..])
  }

  /** `Path(text)`. */
  function Parse(text: string): PathArg {
    PathArg(text != "" && text[0] == '/', Significant(Split(text, '/')))
  }

  lemma {:induction false} AllSignificant(parts: Path)
    requires Components(parts)
    ensures Significant(parts) == parts
  {
    if parts != [] { AllSignificant(parts[1..]); }
  }

  lemma {:induction false} SignificantAre(pieces: seq<string>)
    requires forall i :: 0 <= i < |pieces| ==> '/' !in pieces[i]
    ensures Components(Significant(pieces))
    ensures forall name :: name in Significant(pieces) <==> name in pieces && name != "" && name != "."
  {
    if pieces != [] {
      SignificantAre(pieces[1..]);
      assert pieces == [pieces[0]] + pieces[1..];
    }
  }

  /** Whatever the text, parsing yields components, and exactly the pieces between separators
      that are neither empty nor a dot. */
  lemma ParseYieldsComponents(text: string)
    ensures Components(Parse(text).parts)
    ensures forall name :: name in Parse(text).parts <==> name in Split(text, '/') && name != "" && name != "."
  {
    SignificantAre(Split(text, '/'));
  }

  lemma ParseOfJoin(parts: Path)
    requires Components(parts) && parts != []
    ensures Parse(Join(parts, '/')) == PathArg(false, parts) && Join(parts, '/') != "" && Join(parts, '/') != "."
  {
    assert forall i :: 0 <= i < |parts| ==> Component(parts[i]);
    SplitOfJoin(parts, '/');
    AllSignificant(parts);
    assert Component(parts[0]) && parts[0][0] in parts[0];
    assert Join(parts, '/')[0] == parts[0][0];
    if |parts| > 1 { assert '/' in Join(parts, '/') by { assert Join(parts, '/')[|parts[0]|] == '/'; } }
  }

  // ------------------------------------------------------------------
  // Artifact paths
  // ------------------------------------------------------------------

  /** `_assert_safe_relative`. */
  function StoredArtifactPath(p: PathArg): Option<string> {
    if p.absolute || p.parts == [] || exists i :: 0 <= i < |p.parts| && ('\0' in p.parts[i] || p.parts[i] == "..")
    then None else Some(Join(p.parts, '/'))
  }

  /** The row accepts exactly the paths the artifact layer accepts, and gives them back as
      they were. */
  lemma ArtifactPathRoundTrip(p: PathArg)
    requires Components(p.parts)
    ensures StoredArtifactPath(p).Some? <==> AssertSafe(p).Ok?
    ensures StoredArtifactPath(p).Some? ==> Parse(StoredArtifactPath(p).value) == p
  {
    assert forall i :: 0 <= i < |p.parts| ==> Component(p.parts[i]);
    if StoredArtifactPath(p).Some? { ParseOfJoin(p.parts); }
  }

  // ------------------------------------------------------------------
  // Profile directories
  // ------------------------------------------------------------------

  function RelativeText(rel: Path): string { if rel == [] then "." else Join(rel, '/') }

  /** `_profile_dir_to_relative`; `root` is the resolved data directory. */
  function ProfileDirToRelative(t: Tree, root: Path, p: PathArg): Result<string> {
    if exists i :: 0 <= i < |p.parts| && '\0' in p.parts[i] then Err(BadPath)
    else if p.absolute then
      var resolved := Resolve(t, p.parts);
      if resolved.Err? then Err(resolved.error)
      else if !(root <= resolved.value) then Err(Escapes)
      else Ok(RelativeText(resolved.value[|root|..]))
    else if ".." in p.parts then Err(BadPath)
    else Ok(RelativeText(p.parts))
  }

  /** `_profile_dir_from_relative`. */
  function ProfileDirFromRelative(root: Path, text: string): Path {
    if text == "" || text == "." then root
    else
      var p := Parse(text);
      if p.absolute then p.parts else root + p.parts
  }

  lemma FromRelativeText(root: Path, rel: Path)
    requires Components(rel)
    ensures ProfileDirFromRelative(root, RelativeText(rel)) == root + rel
    ensures RelativeText(rel) != "" && (RelativeText(rel) == "." <==> rel == [])
  {
    if rel != [] { ParseOfJoin(rel); }
  }

  /** The directory a row gives back is the one that was stored: where an absolute path
      resolved to, or the relative path below the data directory. */
  lemma ProfileDirRoundTrip(t: Tree, root: Path, p: PathArg)
    requires ProfileDirToRelative(t, root, p).Ok?
    requires Components(p.parts) && (p.absolute ==> Components(Resolve(t, p.parts).value))
    ensures var back := ProfileDirFromRelative(root, ProfileDirToRelative(t, root, p).value);
            && root <= back
            && back == if p.absolute then Resolve(t, p.parts).value else root + p.parts
    ensures var text := ProfileDirToRelative(t, root, p).value;
            text != "" && (text == "." <==> ProfileDirFromRelative(root, text) == root)
  {
    if p.absolute {
      var resolved := Resolve(t, p.parts).value;
      assert resolved == root + resolved[|root|..];
      FromRelativeText(root, resolved[|root|..]);
    } else {
      FromRelativeText(root, p.parts);
    }
  }

  /** A profile directory is accepted exactly when it holds no NUL and either resolves to a
      place inside the data directory or is relative without `..`. */
  lemma ProfileDirAccepted(t: Tree, root: Path, p: PathArg)
    ensures ProfileDirToRelative(t, root, p).Ok? <==>
              && (forall i :: 0 <= i < |p.parts| ==> '\0' !in p.parts[i])
              && if p.absolute then Resolve(t, p.parts).Ok? && root <= Resolve(t, p.parts).value
                 else forall i :: 0 <= i < |p.parts| ==> p.parts[i] != ".."
  {
    hide Resolve, Join;
  }

  /** Storing a profile directory that was just loaded stores the same text, as long as the
      tree below it has not gained a link. */
  lemma ProfileDirResave(t: Tree, root: Path, rel: Path)
    requires Components(rel) && Physical(t, root + rel) && PlainPath(root + rel)
    ensures var back := ProfileDirFromRelative(root, RelativeText(rel));
            ProfileDirToRelative(t, root, PathArg(true, back)) == Ok(RelativeText(rel))
  {
    FromRelativeText(root, rel);
    ResolvePhysical(t, root + rel);
    assert (root + rel)[|root|..] == rel;
    assert forall i :: 0 <= i < |root + rel| ==> Plain((root + rel)[i]);
  }
}
