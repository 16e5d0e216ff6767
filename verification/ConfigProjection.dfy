/** The stored form of a session's configuration (persistence/serialization.py):
    `persistable_session_config` projects it into a secret-free JSON object,
    `_session_config_from_projection` rebuilds it through the constructors of
    models/browser.py. */
module ConfigProjection {
  import opened Text
  import opened ModelText
  import opened Layout
  import DeepRedaction

  /** The field names of the stored objects, and any other text. */
  datatype Key =
    | LaunchKey | ContextKey | PersistStorageState | CaptureInitialStorageState | CaptureFinalStorageState
    | ScreenshotOnFailure | TraceOnFailure
    | EngineName | Mode | SlowMoMs | TimeoutMs | Args | EnableTracing | EnableVideo | EnableConsoleCapture
    | ProxyKey | Server | Username | Bypass | ProfileId | FingerprintKey | Locale | TimezoneId
    | ViewportKey | Width | Height | DeviceScaleFactor | IsMobile | HasTouch | Preset
    | UserAgent | ColorSchemeKey | ReducedMotion | EnvironmentProfileId | AcceptDownloads | JavaScriptEnabled
    | IgnoreHttpsErrors | DefaultTimeoutMs | NavigationTimeoutMs | Permissions | ExtraHttpHeaders
    | OtherKey(text: string)

  datatype Json =
    | Null | Bool(b: bool) | Int(n: int) | Real(r: real) | Str(s: string)
    | Arr(items: seq<Json>) | Obj(fields: map<Key, Json>)

  /** Python's conversions, where they are applied to something of another type; `int` and
      `float` may raise. */
  datatype Conversions = Conversions(
    str: Json -> string, int_: Json -> Option<int>, float: Json -> Option<real>)

  /** On a value that already has the type they change nothing. */
  ghost predicate Sane(py: Conversions) {
    && (forall s :: py.str(Str(s)) == s)
    && (forall n :: py.int_(Int(n)) == Some(n))
    && (forall r :: py.float(Real(r)) == Some(r))
  }

  predicate Truthy(j: Json) {
    match j
    case Null => false
    case Bool(b) => b
    case Int(n) => n != 0
    case Real(r) => r != 0.0
    case Str(s) => s != ""
    case Arr(items) => items != []
    case Obj(fields) => fields != map[]
  }

  // ------------------------------------------------------------------
  // The configuration
  // ------------------------------------------------------------------

  datatype ColorScheme = Light | Dark | NoPreference

  datatype Motion = Reduce | NoMotionPreference

  datatype Proxy = Proxy(
    server: string, username: Option<string>, password: Option<string>, bypass: Option<string>, profile: Option<string>)

  datatype Fingerprint = Fingerprint(
    profile: Option<string>, locale: Option<string>, timezone: Option<string>, userAgent: Option<string>,
    extra: map<string, Json>)

  datatype Viewport = Viewport(width: int, height: int, scale: real, mobile: bool, touch: bool, preset: string)

  datatype Launch = Launch(
    engine: string, mode: string, executable: Option<string>, userDataDir: Option<string>, slowMo: int, timeout: int,
    proxy: Option<Proxy>, fingerprint: Option<Fingerprint>, args: seq<string>, env: map<string, string>,
    tracing: bool, video: bool, console: bool)

  datatype Context = Context(
    viewport: Option<Viewport>, locale: Option<string>, timezone: Option<string>, userAgent: Option<string>,
    colorScheme: Option<ColorScheme>, motion: Option<Motion>, environment: Option<string>,
    downloads: bool, javascript: bool, ignoreHttpsErrors: bool, timeout: int, navigationTimeout: int,
    headers: map<string, string>, permissions: seq<string>, harPath: Option<string>, videoDir: Option<string>)

  datatype Config = Config(
    launch: Launch, context: Context, persist: bool, captureInitial: bool, captureFinal: bool,
    screenshot: bool, trace: bool)

  /** Nothing in the configuration is secret or names a local path. */
  predicate Persistable(c: Config) {
    && c.launch.env == map[] && c.launch.executable.None? && c.launch.userDataDir.None?
    && (c.launch.proxy.Some? ==> c.launch.proxy.value.password.None?)
    && (c.launch.fingerprint.Some? ==> c.launch.fingerprint.value.extra == map[])
    && (forall h :: h in c.context.headers ==> !DeepRedaction.Sensitive(h))
    && c.context.harPath.None? && c.context.videoDir.None?
  }

  // ------------------------------------------------------------------
  // Projecting
  // ------------------------------------------------------------------

  function OptText(s: Option<string>): Json { if s.Some? then Str(s.value) else Null }

  function Texts(items: seq<string>): Json {
    Arr(seq(|items|, i requires 0 <= i < |items| => Str(items[i])))
  }

  function Headers(headers: map<string, string>): map<Key, Json> {
    map k: Key | k in (set h | h in headers :: OtherKey(h)) :: Str(headers[k.text])
  }

  function ProjectProxy(p: Proxy): Json {
    Obj(map[Server := Str(p.server), Username := OptText(p.username), Bypass := OptText(p.bypass),
            ProfileId := OptText(p.profile)])
  }

  /** The user agent of a fingerprint is not stored. */
  function ProjectFingerprint(f: Fingerprint): Json {
    Obj(map[ProfileId := OptText(f.profile), Locale := OptText(f.locale), TimezoneId := OptText(f.timezone)])
  }

  function ProjectViewport(v: Viewport): Json {
    Obj(map[Width := Int(v.width), Height := Int(v.height), DeviceScaleFactor := Real(v.scale),
            IsMobile := Bool(v.mobile), HasTouch := Bool(v.touch), Preset := Str(v.preset)])
  }

  function ColorText(c: ColorScheme): string {
    match c
    case Light => "light"
    case Dark => "dark"
    case NoPreference => "no-preference"
  }

  function MotionText(m: Motion): string {
    match m
    case Reduce => "reduce"
    case NoMotionPreference => "no-preference"
  }

  function StoredColor(c: Option<ColorScheme>): Json { if c.Some? then Str(ColorText(c.value)) else Null }

  function StoredMotion(m: Option<Motion>): Json { if m.Some? then Str(MotionText(m.value)) else Null }

  function StoredViewport(v: Option<Viewport>): Json { if v.Some? then ProjectViewport(v.value) else Null }

  function ProjectLaunch(l: Launch): Json {
    Obj(map[
      EngineName := Str(l.engine), Mode := Str(l.mode), SlowMoMs := Int(l.slowMo),
      TimeoutMs := Int(l.timeout), Args := Texts(l.args), EnableTracing := Bool(l.tracing),
      EnableVideo := Bool(l.video), EnableConsoleCapture := Bool(l.console),
      ProxyKey := if l.proxy.Some? then ProjectProxy(l.proxy.value) else Null,
      FingerprintKey := if l.fingerprint.Some? then ProjectFingerprint(l.fingerprint.value) else Null])
  }

  function ProjectContext(c: Context): Json {
    Obj(map[
      ViewportKey := StoredViewport(c.viewport),
      Locale := OptText(c.locale), TimezoneId := OptText(c.timezone), UserAgent := OptText(c.userAgent),
      ColorSchemeKey := StoredColor(c.colorScheme),
      ReducedMotion := StoredMotion(c.motion),
      EnvironmentProfileId := OptText(c.environment), AcceptDownloads := Bool(c.downloads),
      JavaScriptEnabled := Bool(c.javascript), IgnoreHttpsErrors := Bool(c.ignoreHttpsErrors),
      DefaultTimeoutMs := Int(c.timeout), NavigationTimeoutMs := Int(c.navigationTimeout),
      Permissions := Texts(c.permissions),
      ExtraHttpHeaders := Obj(Headers(c.headers))])
  }

  datatype Refusal = Env | ExecutablePath | UserDataDir | ProxyPassword | FingerprintExtra | SensitiveHeader
    | HarPath | VideoDir

  datatype Projected = Accepted(json: Json) | Refused(reason: Refusal)

  /** `persistable_session_config`; the first objection wins. */
  function Project(c: Config): Projected {
    if c.launch.env != map[] then Refused(Env)
    else if c.launch.executable.Some? then Refused(ExecutablePath)
    else if c.launch.userDataDir.Some? then Refused(UserDataDir)
    else if c.launch.proxy.Some? && c.launch.proxy.value.password.Some? then Refused(ProxyPassword)
    else if c.launch.fingerprint.Some? && c.launch.fingerprint.value.extra != map[] then Refused(FingerprintExtra)
    else if exists h :: h in c.context.headers && DeepRedaction.Sensitive(h) then Refused(SensitiveHeader)
    else if c.context.harPath.Some? then Refused(HarPath)
    else if c.context.videoDir.Some? then Refused(VideoDir)
    else
      Accepted(Obj(map[
        LaunchKey := ProjectLaunch(c.launch), ContextKey := ProjectContext(c.context),
        PersistStorageState := Bool(c.persist), CaptureInitialStorageState := Bool(c.captureInitial),
        CaptureFinalStorageState := Bool(c.captureFinal), ScreenshotOnFailure := Bool(c.screenshot),
        TraceOnFailure := Bool(c.trace)]))
  }

  // ------------------------------------------------------------------
  // Rebuilding
  // ------------------------------------------------------------------

  const DEFAULT_ENGINE := "camoufox"
  const DEFAULT_MODE := "headless"
  const DEFAULT_PRESET := "custom"

  function Get(o: map<Key, Json>, key: Key, default_: Json): Json {
    if key in o then o[key] else default_
  }

  function OptStr(py: Conversions, j: Json): Option<string> {
    if j.Null? then None else Some(py.str(j))
  }

  /** A list of texts; anything that is not a list counts as empty. */
  function TextsOf(py: Conversions, j: Json): seq<string> {
    if j.Arr? then seq(|j.items|, i requires 0 <= i < |j.items| => py.str(j.items[i])) else []
  }

  function HeadersOf(py: Conversions, stored: map<Key, Json>): map<string, string> {
    map h | h in (set k | k in stored && k.OtherKey? :: k.text) :: py.str(stored[OtherKey(h)])
  }

  function RebuildProxy(py: Conversions, j: Json): Option<Proxy> {
    if !j.Obj? then None
    else
      Some(Proxy(py.str(Get(j.fields, Server, Str(""))), OptStr(py, Get(j.fields, Username, Null)), None,
                 OptStr(py, Get(j.fields, Bypass, Null)), OptStr(py, Get(j.fields, ProfileId, Null))))
  }

  function RebuildFingerprint(py: Conversions, j: Json): Option<Fingerprint> {
    if !j.Obj? then None
    else
      Some(Fingerprint(OptStr(py, Get(j.fields, ProfileId, Null)), OptStr(py, Get(j.fields, Locale, Null)),
                       OptStr(py, Get(j.fields, TimezoneId, Null)), None, map[]))
  }

  /** None when a conversion raises; Some(None) when there is no viewport. */
  function RebuildViewport(py: Conversions, j: Json): Option<Option<Viewport>> {
    if !j.Obj? then Some(None)
    else if Width !in j.fields || Height !in j.fields then None
    else
      var width, height := py.int_(j.fields[Width]), py.int_(j.fields[Height]);
      var scale := py.float(Get(j.fields, DeviceScaleFactor, Real(1.0)));
      if width.None? || height.None? || scale.None? then None
      else
        Some(Some(Viewport(width.value, height.value, scale.value, Truthy(Get(j.fields, IsMobile, Bool(false))),
                           Truthy(Get(j.fields, HasTouch, Bool(false))),
                           py.str(Get(j.fields, Preset, Str(DEFAULT_PRESET))))))
  }

  function ColorOf(py: Conversions, j: Json): Option<ColorScheme> {
    if j.Null? then None
    else
      var text := py.str(j);
      if text == "light" then Some(Light) else if text == "dark" then Some(Dark)
      else if text == "no-preference" then Some(NoPreference) else None
  }

  function MotionOf(py: Conversions, j: Json): Option<Motion> {
    if j.Null? then None
    else
      var text := py.str(j);
      if text == "reduce" then Some(Reduce) else if text == "no-preference" then Some(NoMotionPreference) else None
  }

  function RebuildLaunch(py: Conversions, o: map<Key, Json>): Option<Launch> {
    var slowMo, timeout := py.int_(Get(o, SlowMoMs, Int(0))), py.int_(Get(o, TimeoutMs, Int(30_000)));
    if slowMo.None? || timeout.None? then None
    else
      Some(Launch(
        py.str(Get(o, EngineName, Str(DEFAULT_ENGINE))), py.str(Get(o, Mode, Str(DEFAULT_MODE))), None, None,
        slowMo.value, timeout.value, RebuildProxy(py, Get(o, ProxyKey, Null)),
        RebuildFingerprint(py, Get(o, FingerprintKey, Null)), TextsOf(py, Get(o, Args, Arr([]))), map[],
        Truthy(Get(o, EnableTracing, Bool(false))), Truthy(Get(o, EnableVideo, Bool(false))),
        Truthy(Get(o, EnableConsoleCapture, Bool(true)))))
  }

  function RebuildContext(py: Conversions, o: map<Key, Json>): Option<Context> {
    var viewport := RebuildViewport(py, Get(o, ViewportKey, Null));
    var timeout := py.int_(Get(o, DefaultTimeoutMs, Int(30_000)));
    var navigation := py.int_(Get(o, NavigationTimeoutMs, Int(45_000)));
    var headers := Get(o, ExtraHttpHeaders, Obj(map[]));
    if viewport.None? || timeout.None? || navigation.None? || !headers.Obj? then None
    else
      Some(Context(
        viewport.value, OptStr(py, Get(o, Locale, Null)), OptStr(py, Get(o, TimezoneId, Null)),
        OptStr(py, Get(o, UserAgent, Null)), ColorOf(py, Get(o, ColorSchemeKey, Null)),
        MotionOf(py, Get(o, ReducedMotion, Null)), OptStr(py, Get(o, EnvironmentProfileId, Null)),
        Truthy(Get(o, AcceptDownloads, Bool(false))), Truthy(Get(o, JavaScriptEnabled, Bool(true))),
        Truthy(Get(o, IgnoreHttpsErrors, Bool(false))), timeout.value, navigation.value,
        HeadersOf(py, headers.fields), TextsOf(py, Get(o, Permissions, Arr([]))),
        None, None))
  }

  /** `_session_config_from_projection` up to the constructors; None stands for any error. */
  function Rebuild(py: Conversions, j: Json): Option<Config> {
    if !j.Obj? then None else
    var launch, context := Get(j.fields, LaunchKey, Obj(map[])), Get(j.fields, ContextKey, Obj(map[]));
    if !launch.Obj? || !context.Obj? then None else
    var l, c := RebuildLaunch(py, launch.fields), RebuildContext(py, context.fields);
    if l.None? || c.None? then None
    else
      Some(Config(
        l.value, c.value, Truthy(Get(j.fields, PersistStorageState, Bool(true))),
        Truthy(Get(j.fields, CaptureInitialStorageState, Bool(true))),
        Truthy(Get(j.fields, CaptureFinalStorageState, Bool(true))),
        Truthy(Get(j.fields, ScreenshotOnFailure, Bool(true))),
        Truthy(Get(j.fields, TraceOnFailure, Bool(true)))))
  }

  // ------------------------------------------------------------------
  // Constructing
  // ------------------------------------------------------------------

  function StripProxy(p: Proxy): Proxy {
    p.(server := StripText(p.server), username := StripOption(p.username), bypass := StripOption(p.bypass),
       profile := StripOption(p.profile))
  }

  ghost function StripFingerprint(f: Fingerprint): Fingerprint {
    Fingerprint(StripOption(f.profile), StripOption(f.locale), StripOption(f.timezone), StripOption(f.userAgent),
                StripKeys(f.extra))
  }

  /** Engine, mode and preset are enumerations and not stripped; nor are paths. */
  ghost function StripLaunch(l: Launch): Launch {
    l.(proxy := if l.proxy.Some? then Some(StripProxy(l.proxy.value)) else None,
       fingerprint := if l.fingerprint.Some? then Some(StripFingerprint(l.fingerprint.value)) else None,
       args := StripTexts(l.args), env := StripMapping(l.env))
  }

  ghost function StripContext(c: Context): Context {
    c.(locale := StripOption(c.locale), timezone := StripOption(c.timezone), userAgent := StripOption(c.userAgent),
       environment := StripOption(c.environment), headers := StripMapping(c.headers),
       permissions := StripTexts(c.permissions))
  }

  ghost function StripConfig(c: Config): Config {
    c.(launch := StripLaunch(c.launch), context := StripContext(c.context))
  }

  predicate OptionalId(prefix: string, s: Option<string>) { s.Some? ==> HasIdForm(prefix, s.value) }

  /** `validate_optional_text`. */
  predicate OptionalText(s: Option<string>) {
    s.Some? ==> Strip(s.value) != "" && forall i :: 0 <= i < |s.value| ==> ' ' <= s.value[i] && s.value[i] != '\U{7f}'
  }

  predicate ViewportFits(v: Viewport) {
    && 320 <= v.width <= 7680 && 320 <= v.height <= 4320 && 0.5 <= v.scale <= 4.0
    && v.preset in {"desktop_1366x768", "desktop_1440x900", "desktop_1920x1080", "mobile_390x844", "custom"}
  }

  predicate LaunchFits(l: Launch) {
    && l.engine in {"camoufox", "playwright_chromium", "playwright_firefox", "playwright_webkit", "mock"}
    && l.mode in {"headless", "headed"} && 0 <= l.slowMo <= 10_000 && 1_000 <= l.timeout <= 300_000
    && (l.proxy.Some? ==> OptionalId("proxy_", l.proxy.value.profile))
    && (l.fingerprint.Some? ==> OptionalId("fp_", l.fingerprint.value.profile))
  }

  predicate ContextFits(c: Context) {
    && (c.viewport.Some? ==> ViewportFits(c.viewport.value)) && OptionalText(c.userAgent)
    && OptionalId("fp_", c.environment) && 1_000 <= c.timeout <= 300_000 && 1_000 <= c.navigationTimeout <= 300_000
  }

  /** What the constructors make of given values: texts are stripped, then the constraints of
      the fields are checked; None when one fails. */
  ghost function Construct(given: Config): Option<Config> {
    var c := StripConfig(given);
    if LaunchFits(c.launch) && ContextFits(c.context) then Some(c) else None
  }

  /** A configuration as the constructors let it exist. */
  ghost predicate Constructed(c: Config) { Construct(c) == Some(c) }

  /** What `_session_config_from_projection` returns; None stands for any of its errors. */
  ghost function Load(py: Conversions, j: Json): Option<Config> {
    var given := Rebuild(py, j);
    if given.None? then None else Construct(given.value)
  }

  // ------------------------------------------------------------------
  // Properties
  // ------------------------------------------------------------------

  /** A configuration is accepted exactly when it holds nothing secret and no local path. */
  lemma AcceptedExactly(c: Config)
    ensures Project(c).Accepted? <==> Persistable(c)
  {
    hide DeepRedaction.Sensitive, ProjectLaunch, ProjectContext;
  }

  /** The configuration has what the refusal names. */
  ghost predicate Offends(c: Config, reason: Refusal) {
    match reason
    case Env => c.launch.env != map[]
    case ExecutablePath => c.launch.executable.Some?
    case UserDataDir => c.launch.userDataDir.Some?
    case ProxyPassword => c.launch.proxy.Some? && c.launch.proxy.value.password.Some?
    case FingerprintExtra => c.launch.fingerprint.Some? && c.launch.fingerprint.value.extra != map[]
    case SensitiveHeader => exists h :: h in c.context.headers && DeepRedaction.HidesValue(h)
    case HarPath => c.context.harPath.Some?
    case VideoDir => c.context.videoDir.Some?
  }

  function Rank(reason: Refusal): nat {
    match reason
    case Env => 0
    case ExecutablePath => 1
    case UserDataDir => 2
    case ProxyPassword => 3
    case FingerprintExtra => 4
    case SensitiveHeader => 5
    case HarPath => 6
    case VideoDir => 7
  }

  lemma HeadersOffend(c: Config)
    ensures (exists h :: h in c.context.headers && DeepRedaction.Sensitive(h)) <==> Offends(c, SensitiveHeader)
  {
    forall h ensures DeepRedaction.Sensitive(h) <==> DeepRedaction.HidesValue(h) { DeepRedaction.SensitiveExactly(h); }
    hide DeepRedaction.Sensitive, DeepRedaction.HidesValue;
  }

  lemma NamedOffends(c: Config)
    ensures Project(c).Refused? ==> Offends(c, Project(c).reason)
  {
    HeadersOffend(c);
    hide DeepRedaction.Sensitive, DeepRedaction.HidesValue, ProjectLaunch, ProjectContext;
  }

  lemma NoLater(c: Config, reason: Refusal)
    requires Offends(c, reason)
    ensures Project(c).Refused? && Rank(Project(c).reason) <= Rank(reason)
  {
    HeadersOffend(c);
    hide DeepRedaction.Sensitive, DeepRedaction.HidesValue, ProjectLaunch, ProjectContext;
  }

  lemma RankTells(a: Refusal, b: Refusal)
    requires Rank(a) == Rank(b)
    ensures a == b
  {
  }

  /** The refusal names the first offence, and nothing is refused without one. */
  lemma FirstOffenceIsNamed(c: Config, reason: Refusal)
    ensures Project(c) == Refused(reason) <==>
              Offends(c, reason) && forall other :: Rank(other) < Rank(reason) ==> !Offends(c, other)
    ensures Project(c).Refused? <==> exists other :: Offends(c, other)
  {
    hide *;
    NamedOffends(c);
    forall other | Offends(c, other) ensures Project(c).Refused? && Rank(Project(c).reason) <= Rank(other) {
      NoLater(c, other);
    }
    if Project(c).Refused? && Rank(Project(c).reason) == Rank(reason) { RankTells(Project(c).reason, reason); }
  }

  /** What storing forgets. */
  function Forgetful(c: Config): Config {
    if c.launch.fingerprint.None? then c
    else c.(launch := c.launch.(fingerprint := Some(c.launch.fingerprint.value.(userAgent := None))))
  }

  lemma TextsBack(py: Conversions, items: seq<string>)
    requires Sane(py)
    ensures TextsOf(py, Texts(items)) == items
  {
  }

  /** Looking a field up in the stored launch object. */
  lemma LaunchFields(l: Launch)
    ensures ProjectLaunch(l).Obj?
    ensures var o := ProjectLaunch(l).fields;
            && Get(o, EngineName, Str(DEFAULT_ENGINE)) == Str(l.engine) && Get(o, Mode, Str(DEFAULT_MODE)) == Str(l.mode)
            && Get(o, SlowMoMs, Int(0)) == Int(l.slowMo) && Get(o, TimeoutMs, Int(30_000)) == Int(l.timeout)
            && Get(o, Args, Arr([])) == Texts(l.args) && Get(o, EnableTracing, Bool(false)) == Bool(l.tracing)
            && Get(o, EnableVideo, Bool(false)) == Bool(l.video)
            && Get(o, EnableConsoleCapture, Bool(true)) == Bool(l.console)
            && Get(o, ProxyKey, Null) == (if l.proxy.Some? then ProjectProxy(l.proxy.value) else Null)
            && Get(o, FingerprintKey, Null)
                 == (if l.fingerprint.Some? then ProjectFingerprint(l.fingerprint.value) else Null)
  {
    hide Texts, ProjectProxy, ProjectFingerprint;
  }

  lemma ProxyBack(py: Conversions, p: Proxy)
    requires Sane(py) && p.password.None?
    ensures RebuildProxy(py, ProjectProxy(p)) == Some(p)
  {
    var o := ProjectProxy(p).fields;
    assert Get(o, Server, Str("")) == Str(p.server) && Get(o, Username, Null) == OptText(p.username)
      && Get(o, Bypass, Null) == OptText(p.bypass) && Get(o, ProfileId, Null) == OptText(p.profile);
    hide Get;
  }

  lemma FingerprintBack(py: Conversions, f: Fingerprint)
    requires Sane(py) && f.extra == map[]
    ensures RebuildFingerprint(py, ProjectFingerprint(f)) == Some(f.(userAgent := None))
  {
    var o := ProjectFingerprint(f).fields;
    assert Get(o, ProfileId, Null) == OptText(f.profile) && Get(o, Locale, Null) == OptText(f.locale)
      && Get(o, TimezoneId, Null) == OptText(f.timezone);
    hide Get;
  }

  lemma LaunchBack(py: Conversions, c: Config)
    requires Sane(py) && Persistable(c)
    ensures ProjectLaunch(c.launch).Obj?
    ensures RebuildLaunch(py, ProjectLaunch(c.launch).fields) == Some(Forgetful(c).launch)
  {
    var l := c.launch;
    LaunchFields(l);
    TextsBack(py, l.args);
    if l.proxy.Some? { ProxyBack(py, l.proxy.value); }
    if l.fingerprint.Some? { FingerprintBack(py, l.fingerprint.value); }
    hide Get, Texts, TextsOf, ProjectLaunch, ProjectProxy, ProjectFingerprint, DeepRedaction.Sensitive;
  }

  lemma HeadersBack(py: Conversions, headers: map<string, string>)
    requires Sane(py)
    ensures HeadersOf(py, Headers(headers)) == headers
  {
    var stored := Headers(headers);
    assert forall h :: h in headers <==> OtherKey(h) in stored;
    assert forall k :: k in stored ==> k.OtherKey?;
    assert forall h :: h in headers ==> stored[OtherKey(h)] == Str(headers[h]);
    hide Headers;
    assert forall h :: h in HeadersOf(py, stored) <==> OtherKey(h) in stored;
  }

  lemma ViewportBack(py: Conversions, v: Viewport)
    requires Sane(py)
    ensures RebuildViewport(py, ProjectViewport(v)) == Some(Some(v))
  {
    var o := ProjectViewport(v).fields;
    assert Get(o, DeviceScaleFactor, Real(1.0)) == Real(v.scale) && Get(o, IsMobile, Bool(false)) == Bool(v.mobile)
      && Get(o, HasTouch, Bool(false)) == Bool(v.touch) && Get(o, Preset, Str(DEFAULT_PRESET)) == Str(v.preset);
    assert Width in o && Height in o && o[Width] == Int(v.width) && o[Height] == Int(v.height);
    hide Get;
  }

  lemma StoredViewportBack(py: Conversions, v: Option<Viewport>)
    requires Sane(py)
    ensures RebuildViewport(py, StoredViewport(v)) == Some(v)
  {
    if v.Some? { ViewportBack(py, v.value); }
    hide ProjectViewport;
  }

  lemma TextBack(py: Conversions, s: Option<string>)
    requires Sane(py)
    ensures OptStr(py, OptText(s)) == s
  {
  }

  lemma ChoicesBack(py: Conversions, c: Option<ColorScheme>, m: Option<Motion>)
    requires Sane(py)
    ensures ColorOf(py, StoredColor(c)) == c && MotionOf(py, StoredMotion(m)) == m
  {
  }

  lemma ContextTexts(c: Context)
    ensures ProjectContext(c).Obj?
    ensures var o := ProjectContext(c).fields;
            && Get(o, Locale, Null) == OptText(c.locale) && Get(o, TimezoneId, Null) == OptText(c.timezone)
            && Get(o, UserAgent, Null) == OptText(c.userAgent)
            && Get(o, EnvironmentProfileId, Null) == OptText(c.environment)
            && Get(o, ColorSchemeKey, Null) == StoredColor(c.colorScheme)
            && Get(o, ReducedMotion, Null) == StoredMotion(c.motion)
            && Get(o, Permissions, Arr([])) == Texts(c.permissions)
  {
    hide Texts, StoredViewport, Headers, OptText;
  }

  lemma ContextSettings(c: Context)
    ensures ProjectContext(c).Obj?
    ensures var o := ProjectContext(c).fields;
            && Get(o, ViewportKey, Null) == StoredViewport(c.viewport)
            && Get(o, AcceptDownloads, Bool(false)) == Bool(c.downloads)
            && Get(o, JavaScriptEnabled, Bool(true)) == Bool(c.javascript)
            && Get(o, IgnoreHttpsErrors, Bool(false)) == Bool(c.ignoreHttpsErrors)
            && Get(o, DefaultTimeoutMs, Int(30_000)) == Int(c.timeout)
            && Get(o, NavigationTimeoutMs, Int(45_000)) == Int(c.navigationTimeout)
            && Get(o, ExtraHttpHeaders, Obj(map[])) == Obj(Headers(c.headers))
  {
    hide Texts, StoredViewport, Headers, OptText;
  }

  lemma ContextBack(py: Conversions, x: Context)
    requires Sane(py) && x.harPath.None? && x.videoDir.None?
    ensures ProjectContext(x).Obj?
    ensures RebuildContext(py, ProjectContext(x).fields) == Some(x)
  {
    ContextTexts(x);
    ContextSettings(x);
    TextsBack(py, x.permissions);
    HeadersBack(py, x.headers);
    ChoicesBack(py, x.colorScheme, x.motion);
    StoredViewportBack(py, x.viewport);
    TextBack(py, x.locale);
    TextBack(py, x.timezone);
    TextBack(py, x.userAgent);
    TextBack(py, x.environment);
    assert py.int_(Int(x.timeout)) == Some(x.timeout);
    assert py.int_(Int(x.navigationTimeout)) == Some(x.navigationTimeout);
    hide Get, Texts, TextsOf, Headers, HeadersOf, ProjectContext, StoredViewport, RebuildViewport, ColorOf, MotionOf,
      StoredColor, StoredMotion, OptStr, OptText, Sane;
  }

  lemma ConfigFields(c: Config)
    requires Project(c).Accepted?
    ensures Project(c).json.Obj?
    ensures var o := Project(c).json.fields;
            && Get(o, LaunchKey, Obj(map[])) == ProjectLaunch(c.launch)
            && Get(o, ContextKey, Obj(map[])) == ProjectContext(c.context)
            && Get(o, PersistStorageState, Bool(true)) == Bool(c.persist)
            && Get(o, CaptureInitialStorageState, Bool(true)) == Bool(c.captureInitial)
            && Get(o, CaptureFinalStorageState, Bool(true)) == Bool(c.captureFinal)
            && Get(o, ScreenshotOnFailure, Bool(true)) == Bool(c.screenshot)
            && Get(o, TraceOnFailure, Bool(true)) == Bool(c.trace)
  {
    hide ProjectLaunch, ProjectContext, DeepRedaction.Sensitive;
  }

  lemma AcceptedIsBare(c: Config)
    requires Project(c).Accepted?
    ensures Persistable(c) && c.context.harPath.None? && c.context.videoDir.None?
  {
    AcceptedExactly(c);
    hide Project, DeepRedaction.Sensitive;
  }

  /** Rebuilding an accepted projection never fails and forgets at most the user agent of the
      fingerprint. */
  lemma RebuildOfProject(py: Conversions, c: Config)
    requires Sane(py) && Project(c).Accepted?
    ensures Rebuild(py, Project(c).json) == Some(Forgetful(c))
  {
    hide Get, Project, ProjectLaunch, ProjectContext, RebuildLaunch, RebuildContext, Sane, Persistable,
      DeepRedaction.Sensitive;
    AcceptedIsBare(c);
    ConfigFields(c);
    LaunchBack(py, c);
    ContextBack(py, c.context);
  }

  lemma ForgetsNothingExactly(c: Config)
    ensures Forgetful(c) == c <==> c.launch.fingerprint.None? || c.launch.fingerprint.value.userAgent.None?
  {
    if Forgetful(c) == c { assert Forgetful(c).launch.fingerprint == c.launch.fingerprint; }
  }

  // Stripping twice is stripping once, so what was constructed once is constructed again.

  lemma LaunchTwice(l: Launch)
    ensures StripLaunch(StripLaunch(l)) == StripLaunch(l)
  {
    hide StripText, StripOption, StripTexts, StripMapping, StripKeys;
    if l.proxy.Some? {
      var p := l.proxy.value;
      StripClips(p.server);
      StripClipped(StripText(p.server));
      OptionTwice(p.username);
      OptionTwice(p.bypass);
      OptionTwice(p.profile);
    }
    if l.fingerprint.Some? {
      var f := l.fingerprint.value;
      OptionTwice(f.profile);
      OptionTwice(f.locale);
      OptionTwice(f.timezone);
      OptionTwice(f.userAgent);
      KeysTwice(f.extra);
    }
    TextsTwice(l.args);
    MappingTwice(l.env);
  }

  lemma ContextTwice(c: Context)
    ensures StripContext(StripContext(c)) == StripContext(c)
  {
    hide StripText, StripOption, StripTexts, StripMapping, StripKeys;
    OptionTwice(c.locale);
    OptionTwice(c.timezone);
    OptionTwice(c.userAgent);
    OptionTwice(c.environment);
    MappingTwice(c.headers);
    TextsTwice(c.permissions);
  }

  /** Constructing again what was constructed changes nothing and refuses nothing. */
  lemma ConstructSettles(given: Config)
    requires Construct(given).Some?
    ensures Constructed(Construct(given).value)
  {
    LaunchTwice(given.launch);
    ContextTwice(given.context);
    hide StripLaunch, StripContext, LaunchFits, ContextFits;
  }

  /** Every text of a constructed configuration is stripped. */
  lemma ConstructedIsClipped(c: Config)
    requires Constructed(c)
    ensures (forall i :: 0 <= i < |c.launch.args| ==> Clipped(c.launch.args[i])) && ClippedMapping(c.launch.env)
    ensures c.launch.proxy.Some? ==>
              var p := c.launch.proxy.value;
              Clipped(p.server) && ClippedOption(p.username) && ClippedOption(p.bypass) && ClippedOption(p.profile)
    ensures c.launch.fingerprint.Some? ==>
              var f := c.launch.fingerprint.value;
              && ClippedOption(f.profile) && ClippedOption(f.locale) && ClippedOption(f.timezone)
              && ClippedOption(f.userAgent) && forall k :: k in f.extra ==> Clipped(k)
    ensures ClippedOption(c.context.locale) && ClippedOption(c.context.timezone) && ClippedOption(c.context.userAgent)
    ensures ClippedOption(c.context.environment) && ClippedMapping(c.context.headers)
    ensures forall i :: 0 <= i < |c.context.permissions| ==> Clipped(c.context.permissions[i])
  {
    var l, x := c.launch, c.context;
    assert StripLaunch(l) == l && StripContext(x) == x;
    hide Clipped, StripText, StripOption, StripTexts, StripMapping, StripKeys, ClippedOption, ClippedMapping, Constructed;
    StripTextsClips(l.args);
    MappingTwice(l.env);
    if l.proxy.Some? {
      var p := l.proxy.value;
      assert StripProxy(p) == p;
      StripClips(p.server);
      StripOptionClips(p.username);
      StripOptionClips(p.bypass);
      StripOptionClips(p.profile);
    }
    if l.fingerprint.Some? {
      var f := l.fingerprint.value;
      assert StripFingerprint(f) == f;
      StripOptionClips(f.profile);
      StripOptionClips(f.locale);
      StripOptionClips(f.timezone);
      StripOptionClips(f.userAgent);
      StripKeysClips(f.extra);
    }
    StripOptionClips(x.locale);
    StripOptionClips(x.timezone);
    StripOptionClips(x.userAgent);
    StripOptionClips(x.environment);
    MappingTwice(x.headers);
    StripTextsClips(x.permissions);
  }

  /** The numbers of a configuration are bounded one by one: changing one of them keeps it
      constructible exactly inside these bounds. */
  lemma BoundsExactly(c: Config, n: int)
    requires Constructed(c)
    ensures Constructed(c.(launch := c.launch.(slowMo := n))) <==> 0 <= n <= 10_000
    ensures Constructed(c.(launch := c.launch.(timeout := n))) <==> 1_000 <= n <= 300_000
    ensures Constructed(c.(context := c.context.(timeout := n))) <==> 1_000 <= n <= 300_000
    ensures Constructed(c.(context := c.context.(navigationTimeout := n))) <==> 1_000 <= n <= 300_000
  {
    assert LaunchFits(c.launch) && ContextFits(c.context) && StripLaunch(c.launch) == c.launch && StripContext(c.context) == c.context;
    LaunchBounds(c.launch, n);
    ContextBounds(c.context, n);
    hide StripLaunch, StripContext, LaunchFits, ContextFits;
  }

  lemma LaunchBounds(l: Launch, n: int)
    requires LaunchFits(l) && StripLaunch(l) == l
    ensures var m := l.(slowMo := n); StripLaunch(m) == m && (LaunchFits(m) <==> 0 <= n <= 10_000)
    ensures var m := l.(timeout := n); StripLaunch(m) == m && (LaunchFits(m) <==> 1_000 <= n <= 300_000)
  {
    hide StripProxy, StripFingerprint, StripTexts, StripMapping, OptionalId;
  }

  lemma ContextBounds(x: Context, n: int)
    requires ContextFits(x) && StripContext(x) == x
    ensures var m := x.(timeout := n); StripContext(m) == m && (ContextFits(m) <==> 1_000 <= n <= 300_000)
    ensures var m := x.(navigationTimeout := n); StripContext(m) == m && (ContextFits(m) <==> 1_000 <= n <= 300_000)
  {
    hide StripOption, StripTexts, StripMapping, OptionalId, OptionalText, ViewportFits;
  }

  /** The same for a viewport, a stripped user agent and a stripped environment profile id. */
  lemma ChoicesExactly(c: Config, v: Viewport, s: string)
    requires Constructed(c) && Clipped(s)
    ensures Constructed(c.(context := c.context.(viewport := Some(v)))) <==>
              && 320 <= v.width <= 7680 && 320 <= v.height <= 4320 && 0.5 <= v.scale <= 4.0
              && (v.preset == "custom" || v.preset == "desktop_1366x768" || v.preset == "desktop_1440x900"
                  || v.preset == "desktop_1920x1080" || v.preset == "mobile_390x844")
    ensures Constructed(c.(context := c.context.(userAgent := Some(s)))) <==>
              && (exists i :: 0 <= i < |s| && !IsWhite(s[i]))
              && (forall i :: 0 <= i < |s| ==> s[i] >= '\U{20}' && s[i] != '\U{7f}')
    ensures Constructed(c.(context := c.context.(environment := Some(s)))) <==> HasIdForm("fp_", s)
  {
    ViewportExactly(v);
    UserAgentExactly(s);
    hide *;
    OtherContext(c, c.context.(viewport := Some(v)));
    OtherContext(c, c.context.(userAgent := Some(s)));
    OtherContext(c, c.context.(environment := Some(s)));
    ConstructedContext(c);
    ViewportChoice(c.context, v);
    UserAgentChoice(c.context, s);
    EnvironmentChoice(c.context, s);
  }

  lemma ConstructedContext(c: Config)
    requires Constructed(c)
    ensures ContextFits(c.context) && StripContext(c.context) == c.context
  {
    hide LaunchFits, ContextFits, StripLaunch, StripContext;
  }

  /** Whether another context can stand in is a matter of that context. */
  lemma OtherContext(c: Config, x: Context)
    requires Constructed(c)
    ensures Constructed(c.(context := x)) <==> StripContext(x) == x && ContextFits(x)
  {
    hide LaunchFits, ContextFits, StripLaunch, StripContext;
  }

  lemma ViewportExactly(v: Viewport)
    ensures ViewportFits(v) <==>
              && 320 <= v.width <= 7680 && 320 <= v.height <= 4320 && 0.5 <= v.scale <= 4.0
              && (v.preset == "custom" || v.preset == "desktop_1366x768" || v.preset == "desktop_1440x900"
                  || v.preset == "desktop_1920x1080" || v.preset == "mobile_390x844")
  {
  }

  lemma UserAgentExactly(s: string)
    ensures OptionalText(Some(s)) <==>
              && (exists i :: 0 <= i < |s| && !IsWhite(s[i]))
              && (forall i :: 0 <= i < |s| ==> s[i] >= '\U{20}' && s[i] != '\U{7f}')
  {
    StripsToNothing(s);
    hide Strip, IsWhite;
  }

  lemma ViewportChoice(x: Context, v: Viewport)
    requires ContextFits(x) && StripContext(x) == x
    ensures var m := x.(viewport := Some(v)); StripContext(m) == m && (ContextFits(m) <==> ViewportFits(v))
  {
    hide StripOption, StripTexts, StripMapping, OptionalId, OptionalText, ViewportFits;
  }

  lemma UserAgentChoice(x: Context, s: string)
    requires ContextFits(x) && StripContext(x) == x && Clipped(s)
    ensures var m := x.(userAgent := Some(s)); StripContext(m) == m && (ContextFits(m) <==> OptionalText(Some(s)))
  {
    StripOptionClipped(Some(s));
    hide StripOption, StripTexts, StripMapping, OptionalId, OptionalText, ViewportFits;
  }

  lemma EnvironmentChoice(x: Context, s: string)
    requires ContextFits(x) && StripContext(x) == x && Clipped(s)
    ensures var m := x.(environment := Some(s)); StripContext(m) == m && (ContextFits(m) <==> HasIdForm("fp_", s))
  {
    StripOptionClipped(Some(s));
    hide StripOption, StripTexts, StripMapping, OptionalText, ViewportFits, HasIdForm;
  }

  lemma StripsToNothing(s: string)
    ensures Strip(s) == "" <==> forall i :: 0 <= i < |s| ==> IsWhite(s[i])
  {
    var a := StripsAt(s, IsWhite);
    var r := Strip(s);
    assert r != "" ==> !IsWhite(s[a]) && r[0] == s[a];
    hide IsWhite, StripBy;
  }

  lemma ForgetfulIsConstructed(c: Config)
    requires Constructed(c)
    ensures Constructed(Forgetful(c))
  {
    hide StripText, StripOption, StripTexts, StripMapping, StripKeys, StripProxy, ContextFits, StripContext, OptionalId;
    if c.launch.fingerprint.Some? {
      assert c.launch.fingerprint == StripConfig(c).launch.fingerprint;
      NoneStays();
    }
  }

  lemma NoneStays()
    ensures StripOption(None) == None
  {
  }

  /** Loading what was stored of a configuration never fails and forgets at most the user
      agent of the fingerprint. */
  lemma LoadOfProject(py: Conversions, c: Config)
    requires Sane(py) && Constructed(c) && Project(c).Accepted?
    ensures Load(py, Project(c).json) == Some(Forgetful(c))
  {
    RebuildOfProject(py, c);
    ForgetfulIsConstructed(c);
    hide Rebuild, Construct, Project, Forgetful, Sane;
  }

  /** The round trip is the identity exactly when there is no fingerprint user agent. */
  lemma RoundTripExactly(py: Conversions, c: Config)
    requires Sane(py) && Constructed(c) && Project(c).Accepted?
    ensures Load(py, Project(c).json) == Some(c)
            <==> c.launch.fingerprint.None? || c.launch.fingerprint.value.userAgent.None?
  {
    hide *;
    LoadOfProject(py, c);
    ForgetsNothingExactly(c);
  }

  /** Storing what was loaded stores the same projection. */
  lemma ProjectOfLoad(py: Conversions, c: Config)
    requires Sane(py) && Constructed(c) && Project(c).Accepted?
    ensures var back := Load(py, Project(c).json);
            back.Some? && Project(back.value) == Project(c)
  {
    LoadOfProject(py, c);
    ForgetfulProjects(c);
    hide *;
  }

  /** What an empty stored object stands for. */
  lemma RebuildDefaults(py: Conversions)
    requires Sane(py)
    ensures Rebuild(py, Obj(map[])) == Some(Config(
              launch := Launch(
                engine := "camoufox", mode := "headless", executable := None, userDataDir := None, slowMo := 0,
                timeout := 30_000, proxy := None, fingerprint := None, args := [], env := map[], tracing := false,
                video := false, console := true),
              context := Context(
                viewport := None, locale := None, timezone := None, userAgent := None, colorScheme := None,
                motion := None, environment := None, downloads := false, javascript := true, ignoreHttpsErrors := false,
                timeout := 30_000, navigationTimeout := 45_000, headers := map[], permissions := [], harPath := None,
                videoDir := None),
              persist := true, captureInitial := true, captureFinal := true, screenshot := true, trace := true))
  {
    LaunchDefaults(py);
    ContextDefaults(py);
    hide RebuildLaunch, RebuildContext;
  }

  lemma LaunchDefaults(py: Conversions)
    requires Sane(py)
    ensures RebuildLaunch(py, map[]) == Some(Launch(
              "camoufox", "headless", None, None, 0, 30_000, None, None, [], map[], false, false, true))
  {
    assert py.int_(Int(0)) == Some(0) && py.int_(Int(30_000)) == Some(30_000);
    assert py.str(Str("camoufox")) == "camoufox" && py.str(Str("headless")) == "headless";
    assert TextsOf(py, Arr([])) == [];
  }

  lemma ContextDefaults(py: Conversions)
    requires Sane(py)
    ensures RebuildContext(py, map[]) == Some(Context(
              None, None, None, None, None, None, None, false, true, false, 30_000, 45_000, map[], [], None, None))
  {
    assert py.int_(Int(30_000)) == Some(30_000) && py.int_(Int(45_000)) == Some(45_000);
    assert TextsOf(py, Arr([])) == [] && HeadersOf(py, map[]) == map[];
  }

  /** Python's truth. */
  lemma TruthyExactly(j: Json)
    ensures !Truthy(j) <==> j in {Null, Bool(false), Int(0), Real(0.0), Str(""), Arr([]), Obj(map[])}
  {
  }

  /** A rebuilt configuration has nothing that is not stored. */
  lemma RebuiltIsBare(py: Conversions, j: Json)
    requires Rebuild(py, j).Some?
    ensures var c := Rebuild(py, j).value;
            && c.launch.env == map[] && c.launch.executable.None? && c.launch.userDataDir.None?
            && (c.launch.proxy.Some? ==> c.launch.proxy.value.password.None?)
            && (c.launch.fingerprint.Some? ==>
                  c.launch.fingerprint.value.extra == map[] && c.launch.fingerprint.value.userAgent.None?)
            && c.context.harPath.None? && c.context.videoDir.None?
  {
    hide Get, TextsOf, HeadersOf, ColorOf, MotionOf, RebuildViewport, OptStr, Truthy;
  }

  lemma BareStays(given: Config)
    requires given.launch.env == map[] && given.launch.executable.None? && given.launch.userDataDir.None?
    requires given.launch.proxy.Some? ==> given.launch.proxy.value.password.None?
    requires given.launch.fingerprint.Some? ==>
               given.launch.fingerprint.value.extra == map[] && given.launch.fingerprint.value.userAgent.None?
    requires given.context.harPath.None? && given.context.videoDir.None?
    requires Construct(given).Some?
    ensures var c := Construct(given).value;
            && Forgetful(c) == c
            && (Persistable(c) <==> forall h :: h in c.context.headers ==> !DeepRedaction.Sensitive(h))
  {
    var c := Construct(given).value;
    MappingOfNothing();
    hide StripText, StripTexts, StripMapping, StripKeys, LaunchFits, ContextFits, DeepRedaction.Sensitive;
    ForgetsNothingExactly(c);
  }

  lemma MappingOfNothing()
    ensures StripMapping(map[]) == map[] && StripKeys<Json>(map[]) == map[]
  {
    assert StrippedKeys<string>(map[]) == {} && StrippedKeys<Json>(map[]) == {};
  }

  /** Whatever wrote the stored object: what loads can be stored again exactly when no header
      name is sensitive, and from then on loading and storing change nothing. */
  lemma AnyConfigSettles(py: Conversions, j: Json)
    requires Sane(py) && Load(py, j).Some?
    ensures var c := Load(py, j).value;
            && (Project(c).Accepted? <==> forall h :: h in c.context.headers ==> !DeepRedaction.Sensitive(h))
            && (Project(c).Accepted? ==> Load(py, Project(c).json) == Some(c))
  {
    var given := Rebuild(py, j).value;
    var c := Construct(given).value;
    RebuiltIsBare(py, j);
    BareStays(given);
    ConstructSettles(given);
    AcceptedExactly(c);
    assert Load(py, j) == Some(c);
    hide *;
    if Project(c).Accepted? { LoadOfProject(py, c); }
  }

  lemma ForgetfulProjects(c: Config)
    ensures Project(Forgetful(c)) == Project(c)
  {
    assert ProjectLaunch(Forgetful(c).launch) == ProjectLaunch(c.launch);
    hide ProjectLaunch, ProjectContext, DeepRedaction.Sensitive;
  }

  /** And no two accepted configurations share a projection unless they differ in that user
      agent only. */
  lemma ProjectionIsInjective(py: Conversions, c: Config, d: Config)
    requires Sane(py) && Project(c).Accepted? && Project(d).Accepted?
    ensures Project(c) == Project(d) <==> Forgetful(c) == Forgetful(d)
  {
    hide *;
    RebuildOfProject(py, c);
    RebuildOfProject(py, d);
    ForgetfulProjects(c);
    ForgetfulProjects(d);
  }
}
