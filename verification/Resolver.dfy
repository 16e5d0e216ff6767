/** The effective launch and context configuration of a run (environment/resolver.py,
    environment/applicators.py, and the mode override of ops/runs.py).

    A configuration is a map from field names to what the fields hold; a field that holds
    None may be absent. */
module Resolver {
  import opened Text

  type Fields = map<string, Option<string>>

  function At(fields: Fields, name: string): Option<string> {
    if name in fields then fields[name] else None
  }

  /** `model_copy(update=...)`. */
  function Updated(base: Fields, updates: map<string, string>): Fields {
    base + map f | f in updates :: Some(updates[f])
  }

  const MODE := "mode"
  const PROFILE_ID := "environment_profile_id"

  const ENVIRONMENT_FIELDS: seq<string> :=
    ["color_scheme", "locale", "reduced_motion", "timezone_id", "user_agent", "viewport"]

  const LAUNCH_OVERRIDE_FIELDS: seq<string> := [MODE, "slow_mo_ms", "timeout_ms"]

  const CONTEXT_OVERRIDE_FIELDS: seq<string> :=
    ["user_agent", "viewport", "locale", "timezone_id", "color_scheme", "reduced_motion",
     "default_timeout_ms", "navigation_timeout_ms"]

  datatype EnvironmentProfile = EnvironmentProfile(id: string, fields: Fields)

  /** `environment` is the selection override, which may itself name no profile. */
  datatype Overrides = Overrides(launch: Option<Fields>, context: Option<Fields>, environment: Option<Option<string>>)

  datatype Resolution = Resolution(launch: Fields, context: Fields, selected: Option<string>, applied: seq<string>)

  /** The fields of a list that a source sets. */
  function Present(source: Fields, names: seq<string>): map<string, string> {
    map f | f in names && At(source, f).Some? :: At(source, f).value
  }

  method Collect(source: Fields, names: seq<string>) returns (updates: map<string, string>)
    ensures updates == Present(source, names)
  {
    updates := map[];
    for i := 0 to |names|
      invariant updates == Present(source, names[..i])
    {
      var value := At(source, names[i]);
      assert forall f :: f in names[..i + 1] <==> f in names[..i] || f == names[i];
      if value.Some? { updates := updates[names[i] := value.value]; }
    }
    assert names[..|names|] == names;
  }

  // ------------------------------------------------------------------
  // Sorting names
  // ------------------------------------------------------------------

  /** Python's order on strings. */
  predicate Before(a: string, b: string) {
    if a == "" then b != ""
    else b != "" && (a[0] < b[0] || (a[0] == b[0] && Before(a[1..], b[1..])))
  }

  /** The first difference decides, and a proper prefix comes first. */
  ghost predicate DiffersAt(a: string, b: string, k: nat) {
    && k <= |a| && k <= |b| && a[..k] == b[..k]
    && ((k == |a| && k < |b|) || (k < |a| && k < |b| && a[k] < b[k]))
  }

  lemma DiffersLater(a: string, b: string, k: nat)
    requires DiffersAt(a, b, k)
    ensures k == 0 || (a != "" && b != "" && a[0] == b[0])
  {
    if k > 0 { assert a[0] == a[..k][0] && b[0] == b[..k][0]; }
  }

  lemma {:induction false} BeforeExactly(a: string, b: string)
    ensures Before(a, b) <==> exists k: nat :: DiffersAt(a, b, k)
  {
    if a == "" || b == "" || a[0] != b[0] {
      if Before(a, b) { assert DiffersAt(a, b, 0); }
      if k: nat :| DiffersAt(a, b, k) { DiffersLater(a, b, k); }
    } else {
      BeforeExactly(a[1..], b[1..]);
      if k: nat :| DiffersAt(a[1..], b[1..], k) {
        assert a[..k + 1] == [a[0]] + a[1..][..k] && b[..k + 1] == [b[0]] + b[1..][..k];
        assert DiffersAt(a, b, k + 1);
      }
      if k: nat :| DiffersAt(a, b, k) {
        assert a[1..][..k - 1] == a[..k][1..] && b[1..][..k - 1] == b[..k][1..];
        assert DiffersAt(a[1..], b[1..], k - 1);
      }
    }
  }

  predicate Ascending(names: seq<string>) {
    forall i, j :: 0 <= i < j < |names| ==> !Before(names[j], names[i])
  }

  function Insert(names: seq<string>, name: string): seq<string> {
    if names == [] then [name]
    else if Before(name, names[0]) then [name] + names
    else [names[0]] + Insert(names[1..], name)
  }

  /** `sorted(...)` over distinct names. */
  function Sorted(names: seq<string>): seq<string> {
    if names == [] then [] else Insert(Sorted(names[..|names| - 1]), names[|names| - 1])
  }

  lemma {:induction false} BeforeIsTransitive(a: string, b: string, c: string)
    requires !Before(b, a) && !Before(c, b)
    ensures !Before(c, a)
  {
    if a != "" && b != "" && c != "" && a[0] == b[0] == c[0] { BeforeIsTransitive(a[1..], b[1..], c[1..]); }
  }

  lemma {:induction false} BeforeIsAsymmetric(a: string, b: string)
    requires Before(a, b)
    ensures !Before(b, a)
  {
    if a != "" && a[0] == b[0] { BeforeIsAsymmetric(a[1..], b[1..]); }
  }

  lemma {:induction false} InsertAddsOne(names: seq<string>, name: string)
    ensures multiset(Insert(names, name)) == multiset(names) + multiset{name}
  {
    if names != [] && !Before(name, names[0]) {
      InsertAddsOne(names[1..], name);
      hide Before;
      assert names == [names[0]] + names[1..];
    }
  }

  lemma {:induction false} InsertKeepsAscending(names: seq<string>, name: string)
    requires Ascending(names)
    ensures Ascending(Insert(names, name))
  {
    if names == [] {
    } else if Before(name, names[0]) {
      BeforeIsAsymmetric(name, names[0]);
      hide Before;
      forall j | 1 <= j < |names| ensures !Before(names[j], name) { BeforeIsTransitive(name, names[0], names[j]); }
    } else {
      InsertKeepsAscending(names[1..], name);
      InsertAddsOne(names[1..], name);
      var rest := Insert(names[1..], name);
      hide Before, Insert;
      forall j | 0 <= j < |rest| ensures !Before(rest[j], names[0]) {
        assert rest[j] in multiset(rest);
        assert rest[j] == name || rest[j] in names[1..];
      }
      assert Ascending([names[0]] + rest);
    }
  }

  lemma {:induction false} SortedIsSorted(names: seq<string>)
    ensures Ascending(Sorted(names)) && multiset(Sorted(names)) == multiset(names)
  {
    if names != [] {
      var n := |names| - 1;
      SortedIsSorted(names[..n]);
      InsertKeepsAscending(Sorted(names[..n]), names[n]);
      InsertAddsOne(Sorted(names[..n]), names[n]);
      assert names == names[..n] + [names[n]];
    }
  }

  // ------------------------------------------------------------------
  // Resolving
  // ------------------------------------------------------------------

  /** `DefaultEnvironmentProfileSelector.select`. */
  function Selected(context: Fields, overrides: Option<Overrides>): Option<string> {
    if overrides.Some? && overrides.value.environment.Some? && overrides.value.environment.value.Some?
    then overrides.value.environment.value
    else At(context, PROFILE_ID)
  }

  /** `DefaultEnvironmentProfileApplicator.apply`. */
  function Applied(base: Fields, environment: EnvironmentProfile): Fields {
    Updated(base, Present(environment.fields, ENVIRONMENT_FIELDS)[PROFILE_ID := environment.id])
  }

  lemma MarkerIsNoField()
    ensures PROFILE_ID !in ENVIRONMENT_FIELDS
  {
    assert forall i :: 0 <= i < |ENVIRONMENT_FIELDS| ==> ENVIRONMENT_FIELDS[i][0] != 'e';
  }

  /** The marker names the profile, a field the profile sets has the profile's value, and
      every other field is the base's; no field disappears. */
  method Apply(base: Fields, environment: EnvironmentProfile) returns (context: Fields)
    ensures At(context, PROFILE_ID) == Some(environment.id)
    ensures forall f :: f in ENVIRONMENT_FIELDS && At(environment.fields, f).Some? ==>
              At(context, f) == At(environment.fields, f)
    ensures forall f :: f != PROFILE_ID && !(f in ENVIRONMENT_FIELDS && At(environment.fields, f).Some?) ==>
              At(context, f) == At(base, f) && (f in context <==> f in base)
    ensures context == Applied(base, environment)
  {
    MarkerIsNoField();
    var updates := Collect(environment.fields, ENVIRONMENT_FIELDS);
    updates := updates[PROFILE_ID := environment.id];
    context := Updated(base, updates);
  }

  function ContextUpdates(overrides: Option<Overrides>): map<string, string> {
    if overrides.Some? && overrides.value.context.Some?
    then Present(overrides.value.context.value, CONTEXT_OVERRIDE_FIELDS) else map[]
  }

  function LaunchUpdates(overrides: Option<Overrides>): map<string, string> {
    if overrides.Some? && overrides.value.launch.Some?
    then Present(overrides.value.launch.value, LAUNCH_OVERRIDE_FIELDS) else map[]
  }

  /** The names of a list that `keep` holds and `drop` does not, in list order. */
  function Remaining(names: seq<string>, keep: set<string>, drop: set<string>): seq<string> {
    if names == [] then []
    else
      Remaining(names[..|names| - 1], keep, drop)
      + (if names[|names| - 1] in keep && names[|names| - 1] !in drop then [names[|names| - 1]] else [])
  }

  /** `DefaultContextConfigResolver.resolve`; None when the selected profile is not stored. */
  function Resolved(launch: Fields, context: Fields, store: map<string, EnvironmentProfile>, overrides: Option<Overrides>): Option<Resolution> {
    var selected := Selected(context, overrides);
    if selected.Some? && selected.value !in store then None
    else
      var contributed :=
        if selected.Some? then Present(store[selected.value].fields, ENVIRONMENT_FIELDS).Keys else {};
      Some(Resolution(
        Updated(launch, LaunchUpdates(overrides)),
        Updated(if selected.Some? then Applied(context, store[selected.value]) else context, ContextUpdates(overrides)),
        selected,
        Sorted(Remaining(ENVIRONMENT_FIELDS, contributed, ContextUpdates(overrides).Keys))))
  }

  method Resolve(launch: Fields, context: Fields, store: map<string, EnvironmentProfile>, overrides: Option<Overrides>)
    returns (r: Option<Resolution>)
    ensures r == Resolved(launch, context, store, overrides)
  {
    var selected := Selected(context, overrides);
    var contextAfterEnv := context;
    var contributed: set<string> := {};
    if selected.Some? {
      if selected.value !in store { return None; }
      var environment := store[selected.value];
      contextAfterEnv := Apply(context, environment);
      var set_ := Collect(environment.fields, ENVIRONMENT_FIELDS);
      contributed := set_.Keys;
    }
    var launchUpdates: map<string, string> := map[];
    var contextUpdates: map<string, string> := map[];
    if overrides.Some? {
      if overrides.value.launch.Some? { launchUpdates := Collect(overrides.value.launch.value, LAUNCH_OVERRIDE_FIELDS); }
      if overrides.value.context.Some? { contextUpdates := Collect(overrides.value.context.value, CONTEXT_OVERRIDE_FIELDS); }
    }
    hide Present, Updated, Applied;
    r := Some(Resolution(
      Updated(launch, launchUpdates), Updated(contextAfterEnv, contextUpdates), selected,
      Sorted(Remaining(ENVIRONMENT_FIELDS, contributed, contextUpdates.Keys))));
  }

  // ------------------------------------------------------------------
  // Precedence
  // ------------------------------------------------------------------

  function Override(overrides: Option<Overrides>, field: string): Option<string> {
    if overrides.Some? && overrides.value.context.Some?
       && field in {"user_agent", "viewport", "locale", "timezone_id", "color_scheme", "reduced_motion",
                    "default_timeout_ms", "navigation_timeout_ms"}
    then At(overrides.value.context.value, field) else None
  }

  function FromProfile(context: Fields, store: map<string, EnvironmentProfile>, overrides: Option<Overrides>, field: string): Option<string> {
    var selected := Selected(context, overrides);
    if selected.Some? && selected.value in store
       && field in {"color_scheme", "locale", "reduced_motion", "timezone_id", "user_agent", "viewport"}
    then At(store[selected.value].fields, field) else None
  }

  function FirstOf(a: Option<string>, b: Option<string>, c: Option<string>): Option<string> {
    if a.Some? then a else if b.Some? then b else c
  }

  /** The run's selection, if it names a profile, wins over the session's own; resolving fails
      exactly when the profile selected that way is not stored. */
  lemma SelectionExactly(launch: Fields, context: Fields, store: map<string, EnvironmentProfile>, overrides: Option<Overrides>)
    ensures var r := Resolved(launch, context, store, overrides);
            var own := if "environment_profile_id" in context then context["environment_profile_id"] else None;
            match overrides
            case Some(Overrides(_, _, Some(Some(id)))) =>
              (r.Some? <==> id in store) && (r.Some? ==> r.value.selected == Some(id))
            case _ =>
              (r.Some? <==> own.None? || own.value in store) && (r.Some? ==> r.value.selected == own)
  {
    hide Sorted, Remaining, Updated, Applied, Present, ContextUpdates, LaunchUpdates;
  }

  /** A run override that is set is what comes out. */
  lemma OverrideWins(launch: Fields, context: Fields, store: map<string, EnvironmentProfile>, overrides: Overrides, field: string)
    requires overrides.context.Some? && field in overrides.context.value && overrides.context.value[field].Some?
    requires field in {"user_agent", "viewport", "locale", "timezone_id", "color_scheme", "reduced_motion",
                       "default_timeout_ms", "navigation_timeout_ms"}
    requires Resolved(launch, context, store, Some(overrides)).Some?
    ensures var r := Resolved(launch, context, store, Some(overrides)).value;
            field in r.context && r.context[field] == overrides.context.value[field]
  {
    ContextPrecedence(launch, context, store, Some(overrides), field);
    hide Resolved, Selected;
  }

  /** Each context field is the first that is set of run override, selected profile, session;
      the marker field names the selected profile, and is left alone without one. */
  lemma ContextPrecedence(launch: Fields, context: Fields, store: map<string, EnvironmentProfile>, overrides: Option<Overrides>, field: string)
    requires Resolved(launch, context, store, overrides).Some? && field != PROFILE_ID
    ensures At(Resolved(launch, context, store, overrides).value.context, field)
         == FirstOf(Override(overrides, field), FromProfile(context, store, overrides, field), At(context, field))
  {
    var selected := Selected(context, overrides);
    var base := if selected.Some? then Applied(context, store[selected.value]) else context;
    assert Resolved(launch, context, store, overrides).value.context == Updated(base, ContextUpdates(overrides)) by {
      hide Sorted, Remaining, Updated, Applied, Present, ContextUpdates, LaunchUpdates;
    }
    UpdatedAt(base, ContextUpdates(overrides), field);
    OverrideIs(overrides, field);
    if selected.Some? { AppliedAt(context, store[selected.value], field); }
    hide Resolved, Updated, Applied, ContextUpdates, Override, Selected, At;
  }

  lemma UpdatedAt(base: Fields, updates: map<string, string>, field: string)
    ensures At(Updated(base, updates), field) == if field in updates then Some(updates[field]) else At(base, field)
  {
  }

  lemma OverrideIs(overrides: Option<Overrides>, field: string)
    ensures Override(overrides, field)
              == if field in ContextUpdates(overrides) then Some(ContextUpdates(overrides)[field]) else None
  {
    assert field in CONTEXT_OVERRIDE_FIELDS <==>
      field in {"user_agent", "viewport", "locale", "timezone_id", "color_scheme", "reduced_motion",
                "default_timeout_ms", "navigation_timeout_ms"};
    hide At;
  }

  lemma AppliedAt(base: Fields, environment: EnvironmentProfile, field: string)
    requires field != PROFILE_ID
    ensures At(Applied(base, environment), field)
              == if field in {"color_scheme", "locale", "reduced_motion", "timezone_id", "user_agent", "viewport"}
                    && At(environment.fields, field).Some?
                 then At(environment.fields, field) else At(base, field)
  {
    assert field in ENVIRONMENT_FIELDS <==>
      field in {"color_scheme", "locale", "reduced_motion", "timezone_id", "user_agent", "viewport"};
    var updates := Present(environment.fields, ENVIRONMENT_FIELDS)[PROFILE_ID := environment.id];
    UpdatedAt(base, updates, field);
    hide Updated, At;
  }

  lemma MarkerNamesProfile(launch: Fields, context: Fields, store: map<string, EnvironmentProfile>, overrides: Option<Overrides>)
    requires Resolved(launch, context, store, overrides).Some?
    ensures var r := Resolved(launch, context, store, overrides).value;
            At(r.context, PROFILE_ID) == if r.selected.Some? then Some(store[r.selected.value].id) else At(context, PROFILE_ID)
  {
    assert PROFILE_ID !in CONTEXT_OVERRIDE_FIELDS by {
      assert forall i :: 0 <= i < |CONTEXT_OVERRIDE_FIELDS| ==> CONTEXT_OVERRIDE_FIELDS[i][0] != 'e';
    }
    hide Sorted, Remaining;
  }

  lemma LaunchPrecedence(launch: Fields, context: Fields, store: map<string, EnvironmentProfile>, overrides: Option<Overrides>, field: string)
    requires Resolved(launch, context, store, overrides).Some?
    ensures At(Resolved(launch, context, store, overrides).value.launch, field)
         == if overrides.Some? && overrides.value.launch.Some? && field in {"mode", "slow_mo_ms", "timeout_ms"}
               && At(overrides.value.launch.value, field).Some?
            then At(overrides.value.launch.value, field) else At(launch, field)
  {
    hide Sorted, Remaining;
  }

  lemma {:induction false} RemainingAre(names: seq<string>, keep: set<string>, drop: set<string>)
    ensures forall f :: f in Remaining(names, keep, drop) <==> f in names && f in keep && f !in drop
    ensures forall f :: multiset(Remaining(names, keep, drop))[f] <= multiset(names)[f]
  {
    if names != [] {
      var n := |names| - 1;
      RemainingAre(names[..n], keep, drop);
      assert names == names[..n] + [names[n]];
    }
  }

  lemma EnvironmentFieldsAreDistinct()
    ensures forall f :: multiset(ENVIRONMENT_FIELDS)[f] <= 1
  {
    var names := ENVIRONMENT_FIELDS;
    assert forall i, j :: 0 <= i < j < |names| ==> names[i][0] != names[j][0];
    DistinctOnce(names);
  }

  lemma {:induction false} DistinctOnce(names: seq<string>)
    requires forall i, j :: 0 <= i < j < |names| ==> names[i] != names[j]
    ensures forall f :: multiset(names)[f] <= 1
  {
    if names != [] {
      var n := |names| - 1;
      DistinctOnce(names[..n]);
      assert names == names[..n] + [names[n]];
      assert names[n] !in names[..n];
    }
  }

  /** The applied fields are sorted, without repetition, and exactly those the profile sets and
      no override replaces: the fields whose effective value came from the profile. */
  lemma AppliedExactly(launch: Fields, context: Fields, store: map<string, EnvironmentProfile>, overrides: Option<Overrides>)
    requires Resolved(launch, context, store, overrides).Some?
    ensures var r := Resolved(launch, context, store, overrides).value;
            && Ascending(r.applied) && (forall f :: multiset(r.applied)[f] <= 1)
            && forall f :: f in r.applied <==> FromProfile(context, store, overrides, f).Some? && Override(overrides, f).None?
  {
    hide *;
    var drop := ContextUpdates(overrides).Keys;
    var keep := ContributedBy(context, store, overrides);
    ResolvedApplies(launch, context, store, overrides);
    SortedIsSorted(Remaining(ENVIRONMENT_FIELDS, keep, drop));
    RemainingAre(ENVIRONMENT_FIELDS, keep, drop);
    EnvironmentFieldsAreDistinct();
    var r := Resolved(launch, context, store, overrides).value;
    forall f ensures f in r.applied <==> FromProfile(context, store, overrides, f).Some? && Override(overrides, f).None? {
      assert f in r.applied <==> f in multiset(r.applied);
      ContributedExactly(context, store, overrides, f);
    }
  }

  /** The fields the selected profile sets. */
  function ContributedBy(context: Fields, store: map<string, EnvironmentProfile>, overrides: Option<Overrides>): set<string> {
    var selected := Selected(context, overrides);
    if selected.Some? && selected.value in store
    then Present(store[selected.value].fields, ENVIRONMENT_FIELDS).Keys else {}
  }

  lemma ResolvedApplies(launch: Fields, context: Fields, store: map<string, EnvironmentProfile>, overrides: Option<Overrides>)
    requires Resolved(launch, context, store, overrides).Some?
    ensures Resolved(launch, context, store, overrides).value.applied
         == Sorted(Remaining(ENVIRONMENT_FIELDS, ContributedBy(context, store, overrides), ContextUpdates(overrides).Keys))
  {
    hide Sorted, Remaining, Updated, Applied, Present, ContextUpdates;
  }

  lemma ContributedExactly(context: Fields, store: map<string, EnvironmentProfile>, overrides: Option<Overrides>, f: string)
    ensures FromProfile(context, store, overrides, f).Some? <==> f in ENVIRONMENT_FIELDS && f in ContributedBy(context, store, overrides)
    ensures f in ENVIRONMENT_FIELDS ==> (Override(overrides, f).Some? <==> f in ContextUpdates(overrides).Keys)
  {
  }

  // ------------------------------------------------------------------
  // The headed override
  // ------------------------------------------------------------------

  function ModeOf(headed: bool): string { if headed then "headed" else "headless" }

  /** `_normalize_mode_overrides`; None is its `UsageError`. */
  function NormalizeModeOverrides(headed: Option<bool>, overrides: Option<Overrides>): Option<Option<Overrides>> {
    if headed.None? then Some(overrides)
    else
      var mode := ModeOf(headed.value);
      var launch := if overrides.Some? then overrides.value.launch else None;
      if launch.Some? && At(launch.value, MODE).Some? && At(launch.value, MODE) != Some(mode) then None
      else
        var base := if overrides.Some? then overrides.value else Overrides(None, None, None);
        var updated := if launch.Some? then launch.value[MODE := Some(mode)] else map[MODE := Some(mode)];
        Some(Some(base.(launch := Some(updated))))
  }

  /** `_apply_mode_override`, on the launch configuration. */
  function ApplyModeOverride(launch: Fields, headed: Option<bool>): Fields {
    if headed.None? then launch else launch[MODE := Some(ModeOf(headed.value))]
  }

  /** The override conflicts exactly when both modes are given and differ; otherwise only the
      launch mode changes, and doing it twice is doing it once. */
  lemma NormalizeExactly(headed: Option<bool>, overrides: Option<Overrides>)
    ensures var n := NormalizeModeOverrides(headed, overrides);
            var mode := if headed == Some(true) then "headed" else "headless";
            && (n.None? <==>
                  headed.Some? && overrides.Some? && overrides.value.launch.Some?
                  && At(overrides.value.launch.value, "mode").Some?
                  && At(overrides.value.launch.value, "mode").value != mode)
            && (n.Some? ==>
                  && NormalizeModeOverrides(headed, n.value) == n
                  && LaunchUpdates(n.value) ==
                       (if headed.Some? then LaunchUpdates(overrides)["mode" := mode] else LaunchUpdates(overrides))
                  && ContextUpdates(n.value) == ContextUpdates(overrides)
                  && forall context :: Selected(context, n.value) == Selected(context, overrides))
  {
    var n := NormalizeModeOverrides(headed, overrides);
    if n.Some? && headed.Some? {
      assert MODE in LAUNCH_OVERRIDE_FIELDS;
      var launch := n.value.value.launch.value;
      assert launch[MODE := Some(ModeOf(headed.value))] == launch;
      hide ModeOf;
      assert LaunchUpdates(n.value) == LaunchUpdates(overrides)[MODE := ModeOf(headed.value)];
    }
  }

  /** With no profile selected and no other override, resolving gives the configuration that
      is used without a resolver, for every headed override. */
  lemma BranchesAgree(launch: Fields, context: Fields, store: map<string, EnvironmentProfile>, headed: Option<bool>)
    requires At(context, PROFILE_ID).None?
    ensures var overrides := NormalizeModeOverrides(headed, None);
            && overrides.Some?
            && var r := Resolved(launch, context, store, overrides.value);
               && r.Some? && r.value.launch == ApplyModeOverride(launch, headed) && r.value.context == context
               && ApplyModeOverride(launch, headed)
                    == (if headed.None? then launch
                        else launch["mode" := Some(if headed.value then "headed" else "headless")])
               && r.value.selected.None? && r.value.applied == []
  {
    NormalizeExactly(headed, None);
    var overrides := NormalizeModeOverrides(headed, None).value;
    NothingContributed(ContextUpdates(overrides).Keys);
    assert Selected(context, overrides).None?;
    assert LaunchUpdates(None) == map[] && ContextUpdates(None) == map[];
    hide Sorted, Remaining, LaunchUpdates, ContextUpdates, NormalizeModeOverrides, Selected, ModeOf;
    assert Updated(context, map[]) == context;
    assert Updated(launch, map[]) == launch;
    if headed.Some? {
      var only: map<string, string> := map[];
      assert Updated(launch, only[MODE := ModeOf(headed.value)]) == launch[MODE := Some(ModeOf(headed.value))];
    }
  }

  lemma NothingContributed(drop: set<string>)
    ensures Sorted(Remaining(ENVIRONMENT_FIELDS, {}, drop)) == []
  {
    var names := Remaining(ENVIRONMENT_FIELDS, {}, drop);
    assert |names| > 0 ==> names[0] in names;
    RemainingAre(ENVIRONMENT_FIELDS, {}, drop);
  }
}
