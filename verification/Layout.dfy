/** Identifier generation and the on-disk layout (ids.py, sessions/ids.py,
    models/identifiers.py, sessions/paths.py, diagnostics/paths.py). */
module Layout {
  import opened Text
  import opened FileTree
  import opened ContainedPaths

  // ------------------------------------------------------------------
  // Identifiers
  // ------------------------------------------------------------------

  predicate IsIdChar(c: char) { IsAlnum(c) || c == '_' || c == '-' }

  predicate IsMark(c: char) { c == '_' || c == '-' }

  /** `^<prefix>[A-Za-z0-9][A-Za-z0-9_-]{7,63}$`. */
  predicate HasIdForm(prefix: string, s: string) {
    && |prefix| + 8 <= |s| <= |prefix| + 64
    && prefix <= s
    && IsAlnum(s[|prefix|])
    && forall k :: |prefix| < k < |s| ==> IsIdChar(s[k])
  }

  predicate IsProfileId(s: string) { HasIdForm("prof_", s) }
  predicate IsRunId(s: string) { HasIdForm("run_", s) }
  predicate IsArtifactId(s: string) { HasIdForm("art_", s) }

  predicate IsHex(s: string, n: nat) {
    |s| == n && forall k :: 0 <= k < n ==> IsDigit(s[k]) || 'a' <= s[k] <= 'f'
  }

  /** `re.sub(r"[^A-Za-z0-9_-]+", "_", s)`: each run of other characters becomes one `_`. */
  function Collapse(s: string): (r: string)
    ensures forall k :: 0 <= k < |r| ==> IsIdChar(r[k])
    decreases |s|
  {
    if s == "" then ""
    else if IsIdChar(s[0]) then [s[0]] + Collapse(s[1..])
    else "_" + Collapse(s[RunEnd(s, 0, c => !IsIdChar(c))..])
  }

  function SafePrefix(prefix: string, fallback: string): string {
    var cleaned := Strip(StripLeft(Collapse(Strip(prefix)), IsMark));
    if cleaned == "" then fallback
    else if |cleaned| <= 16 then cleaned else cleaned[..16]
  }

  function NewArtifactId(prefix: string, fallback: string, hex: string): string {
    "art_" + SafePrefix(prefix, fallback) + "_" + hex
  }

  function NewRunId(hex: string): string { "run_auto_" + hex }

  /** The accepted ids: the prefix, a letter or digit, and 7 to 63 more characters that may
      also be underscores and dashes. */
  lemma IdFormExactly(prefix: string, s: string)
    ensures HasIdForm(prefix, s) <==>
              exists first: char, rest: string ::
                && s == prefix + [first] + rest && 7 <= |rest| <= 63 && IsAlnum(first)
                && forall k :: 0 <= k < |rest| ==> IsAlnum(rest[k]) || rest[k] == '_' || rest[k] == '-'
  {
    if HasIdForm(prefix, s) {
      var first, rest := s[|prefix|], s[|prefix| + 1..];
      assert s == prefix + [first] + rest;
      assert forall k :: 0 <= k < |rest| ==> rest[k] == s[|prefix| + 1 + k];
    }
    if first: char, rest: string :|
      && s == prefix + [first] + rest && 7 <= |rest| <= 63 && IsAlnum(first)
      && forall k :: 0 <= k < |rest| ==> IsAlnum(rest[k]) || rest[k] == '_' || rest[k] == '-'
    {
      assert forall k :: |prefix| < k < |s| ==> s[k] == rest[k - |prefix| - 1];
    }
  }

  lemma IdTextIsTrimmed(s: string)
    requires forall k :: 0 <= k < |s| ==> IsIdChar(s[k])
    ensures Strip(s) == s
  {
    StripTrimmed(s, IsWhite);
  }

  lemma SafePrefixShape(prefix: string, fallback: string)
    requires fallback == "artifact" || fallback == "state"
    ensures var p := SafePrefix(prefix, fallback);
            1 <= |p| <= 16 && IsAlnum(p[0]) && forall k :: 0 <= k < |p| ==> IsIdChar(p[k])
  {
    var all := Collapse(Strip(prefix));
    var left := StripLeft(all, IsMark);
    hide Collapse, StripLeft, Strip;
    assert forall k :: 0 <= k < |left| ==> left[k] == all[|all| - |left| + k];
    IdTextIsTrimmed(left);
    if left == "" {
      assert forall k :: 0 <= k < |fallback| ==> IsIdChar(fallback[k]);
    }
  }

  lemma IdFromBody(prefix: string, body: string)
    requires 8 <= |body| <= 64 && IsAlnum(body[0]) && forall k :: 0 <= k < |body| ==> IsIdChar(body[k])
    ensures HasIdForm(prefix, prefix + body)
  {
    var s := prefix + body;
    assert forall k :: |prefix| <= k < |s| ==> s[k] == body[k - |prefix|];
  }

  lemma BodyOfId(p: string, hex: string)
    requires IsHex(hex, 16) && 1 <= |p| <= 16 && IsAlnum(p[0])
    requires forall k :: 0 <= k < |p| ==> IsIdChar(p[k])
    ensures var body := p + "_" + hex;
            18 <= |body| <= 33 && IsAlnum(body[0]) && forall k :: 0 <= k < |body| ==> IsIdChar(body[k])
  {
    var body := p + "_" + hex;
    assert forall k :: 0 <= k < |p| ==> body[k] == p[k];
    assert body[|p|] == '_';
    assert forall k :: |p| < k < |body| ==> body[k] == hex[k - |p| - 1];
  }

  /** For every requested prefix, however odd its characters, the generated artifact id
      matches the accepted pattern; so does every generated run id. */
  lemma GeneratedIdsMatch(prefix: string, fallback: string, hex: string)
    requires fallback == "artifact" || fallback == "state"
    requires IsHex(hex, 16)
    ensures IsArtifactId(NewArtifactId(prefix, fallback, hex)) && IsRunId(NewRunId(hex))
  {
    hide SafePrefix, HasIdForm;
    var p := SafePrefix(prefix, fallback);
    SafePrefixShape(prefix, fallback);
    BodyOfId(p, hex);
    IdFromBody("art_", p + "_" + hex);
    assert "art_" + (p + "_" + hex) == NewArtifactId(prefix, fallback, hex);
    assert forall k :: 0 <= k < 4 ==> IsIdChar("auto"[k]);
    BodyOfId("auto", hex);
    IdFromBody("run_", "auto" + "_" + hex);
    assert "run_" + ("auto" + "_" + hex) == NewRunId(hex);
  }

  // What becomes of a requested prefix.

  predicate IdText(s: string) { forall k :: 0 <= k < |s| ==> IsIdChar(s[k]) }

  predicate NoIdText(s: string) { forall k :: 0 <= k < |s| ==> !IsIdChar(s[k]) }

  /** Identifier characters are kept, and each run of other characters between them becomes
      one underscore. */
  lemma {:induction false} CollapseExactly(kept: string, dropped: string, rest: string)
    requires IdText(kept) && NoIdText(dropped) && (rest == "" || IsIdChar(rest[0]))
    ensures Collapse(kept) == kept
    ensures Collapse(kept + dropped + rest) == kept + (if dropped == "" then "" else "_") + Collapse(rest)
  {
    var s := kept + dropped + rest;
    if kept != "" {
      CollapseExactly(kept[1..], dropped, rest);
      assert s[1..] == kept[1..] + dropped + rest;
      assert kept == [kept[0]] + kept[1..];
    } else if dropped != "" {
      assert s == dropped + rest;
      assert rest != "" ==> s[|dropped|] == rest[0];
      assert RunEnd(s, 0, c => !IsIdChar(c)) == |dropped|;
      assert s[|dropped|..] == rest;
    } else {
      assert s == rest;
    }
  }

  /** A prefix that is already safe is used as it is, cut to 16 characters. */
  lemma SafePrefixIsKept(prefix: string, fallback: string)
    requires prefix != "" && IdText(prefix) && IsAlnum(prefix[0])
    ensures SafePrefix(prefix, fallback) == if |prefix| <= 16 then prefix else prefix[..16]
  {
    hide Collapse, Strip, StripLeft;
    IdTextIsTrimmed(prefix);
    CollapseExactly(prefix, "", "");
    NoMarkToStrip(prefix);
    assert prefix + "" + "" == prefix;
  }

  lemma NoMarkToStrip(prefix: string)
    requires prefix != "" && IsAlnum(prefix[0])
    ensures StripLeft(prefix, IsMark) == prefix
  {
    hide StripLeft;
    StripLeftKeeps(prefix, IsMark);
  }

  /** One without any letter or digit gives way to the fallback. */
  lemma OddPrefixIsReplaced(prefix: string, fallback: string)
    requires forall k :: 0 <= k < |prefix| ==> !IsAlnum(prefix[k])
    ensures SafePrefix(prefix, fallback) == fallback
  {
    var a := StripsAt(prefix, IsWhite);
    var core := Strip(prefix);
    assert forall k :: 0 <= k < |core| ==> core[k] == prefix[a + k];
    hide Strip, StripBy, Collapse;
    CollapseKeepsNoAlnum(core);
    StripLeftAll(Collapse(core), IsMark);
    StripsNothing();
    hide StripLeft;
  }

  lemma StripsNothing()
    ensures Strip("") == ""
  {
    StripTrimmed("", IsWhite);
  }

  lemma {:induction false} CollapseKeepsNoAlnum(s: string)
    requires forall k :: 0 <= k < |s| ==> !IsAlnum(s[k])
    ensures forall k :: 0 <= k < |Collapse(s)| ==> Collapse(s)[k] == '_' || Collapse(s)[k] == '-'
    decreases |s|
  {
    if s != "" {
      var rest := if IsIdChar(s[0]) then s[1..] else s[RunEnd(s, 0, c => !IsIdChar(c))..];
      CollapseKeepsNoAlnum(rest);
    }
  }

  lemma {:induction false} StripLeftAll(s: string, f: char -> bool)
    requires forall k :: 0 <= k < |s| ==> f(s[k])
    ensures StripLeft(s, f) == ""
  {
    if s != "" { StripLeftAll(s[1..], f); }
  }

  /** Fresh random digits make a fresh id. */
  lemma FreshHexFreshId(prefix: string, fallback: string, hex: string, hex': string)
    requires |hex| == |hex'| && hex != hex'
    ensures NewArtifactId(prefix, fallback, hex) != NewArtifactId(prefix, fallback, hex')
    ensures NewRunId(hex) != NewRunId(hex')
  {
    hide SafePrefix;
    var head := "art_" + SafePrefix(prefix, fallback) + "_";
    if head + hex == head + hex' { SameTail(head, hex, hex'); }
    if "run_auto_" + hex == "run_auto_" + hex' { SameTail("run_auto_", hex, hex'); }
  }

  lemma SameTail(head: string, a: string, b: string)
    requires head + a == head + b
    ensures a == b
  {
    assert a == (head + a)[|head|..];
  }

  // ------------------------------------------------------------------
  // Layout
  // ------------------------------------------------------------------

  datatype StateType = Initial | Final

  datatype Kind = Screenshot | Trace | Console

  /** Everything that has a place below the data directory. */
  datatype Item =
    | LockFile(profile: string)
    | StateFile(profile: string, run: string, which: StateType)
    | Diagnostic(owner: Option<string>, id: string, kind: Kind, suffix: string)

  function KindSuffix(kind: Kind): string {
    match kind case Screenshot => ".png" case Trace => ".zip" case Console => ".jsonl"
  }

  predicate EndsWith(s: string, e: string) { |e| <= |s| && s[|s| - |e|..] == e }

  predicate HasDotDot(s: string) { exists k :: 0 <= k < |s| - 1 && s[k] == '.' && s[k + 1] == '.' }

  /** `DiagnosticPathPolicy.validate_suffix` accepts. */
  predicate ValidSuffix(kind: Kind, suffix: string) {
    && suffix != "" && suffix != "." && suffix != ".."
    && '/' !in suffix && '\\' !in suffix && '\0' !in suffix
    && !HasDotDot(suffix)
    && EndsWith(suffix, KindSuffix(kind))
  }

  predicate ValidItem(x: Item) {
    match x
    case LockFile(profile) => IsProfileId(profile)
    case StateFile(profile, run, _) => IsProfileId(profile) && IsRunId(run)
    case Diagnostic(owner, id, kind, suffix) =>
      (owner.Some? ==> IsRunId(owner.value)) && IsArtifactId(id) && ValidSuffix(kind, suffix)
  }

  const PROFILES := "profiles"
  const RUNS := "runs"
  const DIAGNOSTICS := "diagnostics"
  const UNSCOPED := "unscoped"
  const LOCK_NAME := ".sightstalker-profile.lock"
  const INITIAL_NAME := "storage_state.initial.json"
  const FINAL_NAME := "storage_state.final.json"

  /** The relative path the builders give each item. */
  function PathOf(x: Item): Path {
    match x
    case LockFile(profile) => [PROFILES, profile, LOCK_NAME]
    case StateFile(profile, run, Initial) => [PROFILES, profile, RUNS, run, INITIAL_NAME]
    case StateFile(profile, run, Final) => [PROFILES, profile, RUNS, run, FINAL_NAME]
    case Diagnostic(Some(run), id, _, suffix) => [DIAGNOSTICS, RUNS, run, id + "." + suffix]
    case Diagnostic(None, id, _, suffix) => [DIAGNOSTICS, UNSCOPED, id + "." + suffix]
  }

  /** The built paths as text. */
  lemma PathsAsText(profile: string, run: string, id: string, kind: Kind, suffix: string)
    ensures Join(PathOf(LockFile(profile)), '/') == "profiles" + "/" + profile + "/" + ".sightstalker-profile.lock"
    ensures Join(PathOf(StateFile(profile, run, Initial)), '/')
              == "profiles" + "/" + profile + "/" + "runs" + "/" + run + "/" + "storage_state.initial.json"
    ensures Join(PathOf(StateFile(profile, run, Final)), '/')
              == "profiles" + "/" + profile + "/" + "runs" + "/" + run + "/" + "storage_state.final.json"
    ensures Join(PathOf(Diagnostic(Some(run), id, kind, suffix)), '/')
              == "diagnostics" + "/" + "runs" + "/" + run + "/" + (id + "." + suffix)
    ensures Join(PathOf(Diagnostic(None, id, kind, suffix)), '/')
              == "diagnostics" + "/" + "unscoped" + "/" + (id + "." + suffix)
  {
    hide Join;
    JoinThree("profiles", profile, ".sightstalker-profile.lock");
    JoinFive("profiles", profile, "runs", run, "storage_state.initial.json");
    JoinFive("profiles", profile, "runs", run, "storage_state.final.json");
    JoinFour("diagnostics", "runs", run, id + "." + suffix);
    JoinThree("diagnostics", "unscoped", id + "." + suffix);
  }

  lemma JoinTwo(a: string, b: string)
    ensures Join([a, b], '/') == a + "/" + b
  {
    assert [a, b][1..] == [b];
  }

  lemma JoinThree(a: string, b: string, c: string)
    ensures Join([a, b, c], '/') == a + "/" + b + "/" + c
  {
    JoinTwo(b, c);
    assert [a, b, c][1..] == [b, c];
  }

  lemma JoinFour(a: string, b: string, c: string, d: string)
    ensures Join([a, b, c, d], '/') == a + "/" + b + "/" + c + "/" + d
  {
    JoinThree(b, c, d);
    assert [a, b, c, d][1..] == [b, c, d];
  }

  lemma JoinFive(a: string, b: string, c: string, d: string, e: string)
    ensures Join([a, b, c, d, e], '/') == a + "/" + b + "/" + c + "/" + d + "/" + e
  {
    JoinFour(b, c, d, e);
    assert [a, b, c, d, e][1..] == [b, c, d, e];
  }

  /** Reads an item back from its path: an identifier has no dot, so the first dot of a
      diagnostic name ends the artifact id, and the ending tells the kind. */
  function ItemOf(p: Path): Option<Item> {
    if |p| == 3 && p[0] == PROFILES then Some(LockFile(p[1]))
    else if |p| == 5 && p[0] == PROFILES then
      Some(StateFile(p[1], p[3], if p[4] == INITIAL_NAME then Initial else Final))
    else if |p| == 4 then NameOf(Some(p[2]), p[3])
    else if |p| == 3 then NameOf(None, p[2])
    else None
  }

  function NameOf(owner: Option<string>, name: string): Option<Item> {
    var dot := RunEnd(name, 0, c => c != '.');
    if dot == |name| then None else
    var suffix := name[dot + 1..];
    Some(Diagnostic(owner, name[..dot], KindOf(suffix), suffix))
  }

  function KindOf(suffix: string): Kind {
    if EndsWith(suffix, ".png") then Screenshot else if EndsWith(suffix, ".zip") then Trace else Console
  }

  lemma KindFromSuffix(kind: Kind, suffix: string)
    requires EndsWith(suffix, KindSuffix(kind))
    ensures KindOf(suffix) == kind
  {
    var e := KindSuffix(kind);
    assert suffix[|suffix| - 1] == suffix[|suffix| - |e|..][|e| - 1] == e[|e| - 1];
  }

  lemma IdHasNoSpecialCharacters(prefix: string, s: string)
    requires prefix in {"prof_", "run_", "art_"} && HasIdForm(prefix, s)
    ensures forall k :: 0 <= k < |s| ==> IsIdChar(s[k])
    ensures |s| > 4
  {
    assert forall k :: 0 <= k < |prefix| ==> s[k] == prefix[k] && IsIdChar(prefix[k]);
  }

  lemma NameRoundTrip(owner: Option<string>, id: string, kind: Kind, suffix: string)
    requires IsArtifactId(id) && EndsWith(suffix, KindSuffix(kind))
    ensures NameOf(owner, id + "." + suffix) == Some(Diagnostic(owner, id, kind, suffix))
  {
    IdHasNoSpecialCharacters("art_", id);
    hide IsArtifactId, ValidSuffix, EndsWith;
    assert '.' !in id;
    RunEndOfPiece(id, "." + suffix, '.');
    var name := id + "." + suffix;
    assert name == id + ("." + suffix);
    assert name[..|id|] == id && name[|id| + 1..] == suffix;
    KindFromSuffix(kind, suffix);
  }

  /** The layout is injective, by a decoder: from the path of any valid item the profile,
      the run, the type, the artifact id and the suffix are recovered. */
  lemma PathRoundTrip(x: Item)
    requires ValidItem(x)
    ensures ItemOf(PathOf(x)) == Some(x)
  {
    match x
    case Diagnostic(owner, id, kind, suffix) => NameRoundTrip(owner, id, kind, suffix);
    case _ =>
  }

  lemma LayoutInjective(x: Item, y: Item)
    requires ValidItem(x) && ValidItem(y) && PathOf(x) == PathOf(y)
    ensures x == y
  {
    hide ValidItem, PathOf, ItemOf;
    PathRoundTrip(x);
    PathRoundTrip(y);
  }

  function RunOf(x: Item): Option<string> {
    match x
    case LockFile(_) => None
    case StateFile(_, run, _) => Some(run)
    case Diagnostic(owner, _, _, _) => owner
  }

  /** With a fresh run id, or a fresh artifact id for a diagnostic, no write hits a path that
      is already taken; and a snapshot never shares a path with a diagnostic or a lock. */
  lemma FreshPathsAreFree(existing: set<Item>, x: Item)
    requires ValidItem(x) && forall y :: y in existing ==> ValidItem(y)
    requires
      || (RunOf(x).Some? && forall y :: y in existing ==> RunOf(y) != RunOf(x))
      || (x.Diagnostic? && forall y :: y in existing && y.Diagnostic? ==> y.id != x.id)
    ensures forall y :: y in existing ==> PathOf(y) != PathOf(x)
  {
    hide ValidItem, PathOf;
    forall y | y in existing ensures PathOf(y) != PathOf(x) {
      if PathOf(y) == PathOf(x) { LayoutInjective(x, y); }
    }
  }

  /** A plain component without a separator. */
  predicate IsComponent(s: string) { Plain(s) && '/' !in s }

  lemma FixedNamesAreComponents()
    ensures forall s :: s in {PROFILES, RUNS, DIAGNOSTICS, UNSCOPED} ==> IsComponent(s)
    ensures forall s :: s in {LOCK_NAME, INITIAL_NAME, FINAL_NAME} ==> IsComponent(s)
  {
  }

  /** Every built path passes `assert_safe_relative_path` and no component of it holds a
      separator, so joining and re-parsing it cannot change its components. */
  lemma BuiltPathsAreSafe(x: Item)
    requires ValidItem(x)
    ensures AssertSafe(PathArg(false, PathOf(x))) == Ok(PathOf(x))
    ensures forall k :: 0 <= k < |PathOf(x)| ==> '/' !in PathOf(x)[k]
  {
    FixedNamesAreComponents();
    hide HasIdForm, ValidSuffix, IsComponent;
    match x {
      case LockFile(profile) => IdIsPlain("prof_", profile);
      case StateFile(profile, run, _) => IdIsPlain("prof_", profile); IdIsPlain("run_", run);
      case Diagnostic(owner, id, kind, suffix) =>
        if owner.Some? { IdIsPlain("run_", owner.value); }
        IdIsPlain("art_", id);
        SuffixHasNoSeparator(kind, suffix);
        NameIsPlain(id, suffix);
    }
    assert forall k :: 0 <= k < |PathOf(x)| ==> IsComponent(PathOf(x)[k]);
    ComponentsAreSafe(PathOf(x));
  }

  lemma ComponentsAreSafe(p: Path)
    requires p != [] && forall k :: 0 <= k < |p| ==> IsComponent(p[k])
    ensures AssertSafe(PathArg(false, p)) == Ok(p) && forall k :: 0 <= k < |p| ==> '/' !in p[k]
  {
  }

  lemma SuffixHasNoSeparator(kind: Kind, suffix: string)
    requires ValidSuffix(kind, suffix)
    ensures '/' !in suffix && '\0' !in suffix
  {
  }

  lemma IdIsPlain(prefix: string, s: string)
    requires prefix in {"prof_", "run_", "art_"} && HasIdForm(prefix, s)
    ensures IsComponent(s) && |s| > 2
  {
    IdHasNoSpecialCharacters(prefix, s);
  }

  lemma NameIsPlain(id: string, suffix: string)
    requires IsComponent(id) && '/' !in suffix && '\0' !in suffix && |id| > 2
    ensures IsComponent(id + "." + suffix)
  {
  }
}
