/** `redact_value` / `redact_mapping` over nested values, and the loguru hook
    (security/redaction.py). */
module DeepRedaction {
  import opened Text
  import opened TokenRedaction

  /** The values the redactor tells apart.  A `Scalar` stands for everything it returns as
      it is: numbers, booleans, `None`, bytes. */
  datatype Value =
    | Scalar(tag: int)
    | Secret(hidden: string)
    | Str(text: string)
    | List(items: seq<Value>)
    | Map(entries: map<string, Value>)

  const REDACTED: string := "<redacted>"

  const SENSITIVE_FIELD_NAMES: set<string> := {
    "cookie", "cookies", "authorization", "proxy_authorization", "access_token",
    "refresh_token", "id_token", "token", "secret", "client_secret", "password",
    "passphrase", "api_key", "apikey", "private_key", "storage_state", "local_storage",
    "session_storage"
  }

  const SENSITIVE_HEADER_NAMES: set<string> := {
    "authorization", "proxy-authorization", "cookie", "set-cookie", "x-api-key"
  }

  /** `str.lower()` as far as it can produce an ASCII letter: the capitals and the Kelvin
      sign.  Any other character keeps a name out of the all-ASCII sets above. */
  function FoldChar(c: char): char {
    if c == '\U{212a}' then 'k' else LowerChar(c)
  }

  function Fold(key: string): string {
    var k := Strip(key);
    seq(|k|, i requires 0 <= i < |k| => FoldChar(k[i]))
  }

  function DashToUnderscore(k: string): string {
    seq(|k|, i requires 0 <= i < |k| => if k[i] == '-' then '_' else k[i])
  }

  predicate IsSensitiveKey(key: string) { DashToUnderscore(Fold(key)) in SENSITIVE_FIELD_NAMES }

  predicate IsSensitiveHeader(key: string) { Fold(key) in SENSITIVE_HEADER_NAMES }

  predicate Sensitive(key: string) { IsSensitiveKey(key) || IsSensitiveHeader(key) }

  function Redacted(v: Value): Value {
    match v
    case Scalar(_) => v
    case Secret(_) => Str(REDACTED)
    case Str(text) => Str(RedactString(text))
    case List(items) => List(seq(|items|, i requires 0 <= i < |items| => Redacted(items[i])))
    case Map(entries) =>
      Map(map k | k in entries :: if Sensitive(k) then Str(REDACTED) else Redacted(entries[k]))
  }

  /** `redact_mapping` builds a fresh dict key by key; `redact_value` dispatches on the
      value and walks sequences. */
  method RedactMapping(data: map<string, Value>) returns (result: map<string, Value>)
    ensures Map(result) == Redacted(Map(data))
    decreases Map(data), 0
  {
    hide Sensitive, RedactString;
    result := map[];
    var todo := data.Keys;
    while todo != {}
      invariant todo <= data.Keys && result.Keys == data.Keys - todo
      invariant forall k :: k in result ==>
        result[k] == if Sensitive(k) then Str(REDACTED) else Redacted(data[k])
      decreases |todo|
    {
      var key :| key in todo;
      todo := todo - {key};
      if Sensitive(key) {
        result := result[key := Str(REDACTED)];
      } else {
        assert data[key] < Map(data);
        var value := RedactValue(data[key]);
        result := result[key := value];
      }
    }
  }

  method RedactValue(v: Value) returns (result: Value)
    ensures result == Redacted(v)
    decreases v, 1
  {
    hide Sensitive, RedactString;
    match v
    case Scalar(_) => result := v;
    case Secret(_) => result := Str(REDACTED);
    case Str(text) => result := Str(RedactString(text));
    case Map(entries) =>
      var m := RedactMapping(entries);
      result := Map(m);
    case List(items) =>
      var out: seq<Value> := [];
      for i := 0 to |items|
        invariant |out| == i && forall j :: 0 <= j < i ==> out[j] == Redacted(items[j])
      {
        var r := RedactValue(items[i]);
        out := out + [r];
      }
      result := List(out);
  }

  /** Every string leaf is in normal form and every sensitive key holds the marker. */
  ghost predicate Clean(v: Value) {
    match v
    case Scalar(_) => true
    case Secret(_) => false
    case Str(text) => NormalForm(text)
    case List(items) => forall i :: 0 <= i < |items| ==> Clean(items[i])
    case Map(entries) =>
      forall k :: k in entries ==> if Sensitive(k) then entries[k] == Str(REDACTED) else Clean(entries[k])
  }

  /** Same keys, same list lengths, same scalars, and every text with its matches replaced,
      outside the sensitive keys. */
  ghost predicate SameShape(v: Value, w: Value) {
    match v
    case Scalar(_) => w == v
    case Secret(_) => w == Str("<redacted>")
    case Str(text) => w.Str? && Replaced(text, w.text)
    case List(items) =>
      w.List? && |w.items| == |items| && forall i :: 0 <= i < |items| ==> SameShape(items[i], w.items[i])
    case Map(entries) =>
      w.Map? && w.entries.Keys == entries.Keys
      && forall k :: k in entries && !Sensitive(k) ==> SameShape(entries[k], w.entries[k])
  }

  lemma MarkerIsNormal()
    ensures NormalForm(REDACTED)
  {
    hide IsKey;
    assert forall k :: 1 <= k < 9 ==> IsWord(REDACTED[k]);
    forall p: nat, m: Parts ensures !IsMatch(REDACTED, p, m) {
      if IsMatch(REDACTED, p, m) { BodyCharacters(REDACTED, p, m); }
    }
  }

  lemma {:induction false} RedactedIsClean(v: Value)
    ensures Clean(Redacted(v)) && SameShape(v, Redacted(v))
  {
    hide Sensitive, RedactString, NormalForm, Replaced;
    match v
    case Str(text) => RedactedIsNormal(text); RedactedExactly(text, RedactString(text));
    case List(items) =>
      forall i | 0 <= i < |items| ensures Clean(Redacted(items[i])) && SameShape(items[i], Redacted(items[i])) {
        RedactedIsClean(items[i]);
      }
    case Map(entries) =>
      forall k | k in entries && !Sensitive(k)
        ensures Clean(Redacted(entries[k])) && SameShape(entries[k], Redacted(entries[k])) {
        RedactedIsClean(entries[k]);
      }
    case Secret(_) => MarkerIsNormal();
    case Scalar(_) =>
  }

  lemma {:induction false} CleanIsFixed(v: Value)
    requires Clean(v)
    ensures Redacted(v) == v
  {
    hide Sensitive, RedactString, NormalForm;
    match v
    case Str(text) => RedactFixesNormalForms(text);
    case List(items) =>
      forall i | 0 <= i < |items| ensures Redacted(items[i]) == items[i] { CleanIsFixed(items[i]); }
      assert Redacted(v).items == items;
    case Map(entries) =>
      forall k | k in entries && !Sensitive(k) ensures Redacted(entries[k]) == entries[k] {
        CleanIsFixed(entries[k]);
      }
      assert Redacted(v).entries == entries;
    case Scalar(_) =>
    case Secret(_) =>
  }

  /** Deep redaction changes a value exactly when something in it is unsafe, so redacting
      twice, as the health service and the row writer do, is redacting once. */
  lemma RedactionIsIdempotent(v: Value)
    ensures Redacted(v) == v <==> Clean(v)
    ensures Redacted(Redacted(v)) == Redacted(v)
  {
    RedactedIsClean(v);
    CleanIsFixed(Redacted(v));
    if Clean(v) { CleanIsFixed(v); }
  }

  // ------------------------------------------------------------------
  // Which keys are sensitive
  // ------------------------------------------------------------------

  /** One character of a name as it may be written: in either case, `k` also as the Kelvin
      sign, and in a field name `_` also as `-`. */
  predicate SpellsChar(c: char, n: char, dash: bool) {
    || c == n || ('A' <= c <= 'Z' && c - 'A' + 'a' == n) || (c == '\U{212a}' && n == 'k')
    || (dash && c == '-' && n == '_')
  }

  /** `key` spells `name`, with white space around it. */
  ghost predicate SpellsName(key: string, name: string, dash: bool) {
    exists a: nat :: SpellsAt(key, a, name, dash)
  }

  ghost predicate SpellsAt(key: string, a: nat, name: string, dash: bool) {
    && a + |name| <= |key|
    && (forall i :: 0 <= i < a ==> IsWhite(key[i])) && (forall i :: a + |name| <= i < |key| ==> IsWhite(key[i]))
    && forall i :: 0 <= i < |name| ==> SpellsChar(key[a + i], name[i], dash)
  }

  ghost predicate IsFieldName(name: string) {
    name in {
      "cookie", "cookies", "authorization", "proxy_authorization", "access_token", "refresh_token", "id_token",
      "token", "secret", "client_secret", "password", "passphrase", "api_key", "apikey", "private_key",
      "storage_state", "local_storage", "session_storage"}
  }

  ghost predicate IsHeaderName(name: string) {
    name in {"authorization", "proxy-authorization", "cookie", "set-cookie", "x-api-key"}
  }

  /** Exactly these keys hide their values. */
  ghost predicate HidesValue(key: string) {
    || (exists name :: IsFieldName(name) && SpellsName(key, name, true))
    || (exists name :: IsHeaderName(name) && SpellsName(key, name, false))
  }

  /** No white space, no capital and, in a field name, no dash. */
  predicate IsName(name: string, dash: bool) {
    && name != ""
    && forall i :: 0 <= i < |name| ==> 'a' <= name[i] <= 'z' || name[i] == '_' || (!dash && name[i] == '-')
  }

  lemma FieldNames(name: string)
    requires IsFieldName(name)
    ensures IsName(name, true)
  {
    hide IsName;
    if name in {"cookie", "cookies", "authorization", "proxy_authorization", "access_token", "refresh_token", "id_token"} {
      SomeNames(name);
    } else if name in {"token", "secret", "client_secret", "password", "passphrase", "api_key"} {
      MoreNames(name);
    } else {
      OtherNames(name);
    }
  }

  lemma SomeNames(name: string)
    requires name in {"cookie", "cookies", "authorization", "proxy_authorization", "access_token", "refresh_token", "id_token"}
    ensures IsName(name, true)
  {
  }

  lemma MoreNames(name: string)
    requires name in {"token", "secret", "client_secret", "password", "passphrase", "api_key"}
    ensures IsName(name, true)
  {
  }

  lemma OtherNames(name: string)
    requires name in {"apikey", "private_key", "storage_state", "local_storage", "session_storage"}
    ensures IsName(name, true)
  {
  }

  lemma HeaderNames(name: string)
    requires IsHeaderName(name)
    ensures IsName(name, false)
  {
  }

  function Folded(key: string, dash: bool): string { if dash then DashToUnderscore(Fold(key)) else Fold(key) }

  lemma FoldedChar(key: string, dash: bool, i: nat, n: char)
    requires i < |Strip(key)| && ('a' <= n <= 'z' || n == '_' || (!dash && n == '-'))
    ensures |Folded(key, dash)| == |Strip(key)|
    ensures Folded(key, dash)[i] == n <==> SpellsChar(Strip(key)[i], n, dash)
  {
    hide Strip;
  }

  lemma FoldedIsSpelled(key: string, name: string, dash: bool)
    requires IsName(name, dash) && Folded(key, dash) == name
    ensures SpellsName(key, name, dash)
  {
    hide Folded, StripBy, SpellsChar;
    FoldedLength(key, dash);
    var a := StripsAt(key, IsWhite);
    forall i | 0 <= i < |name| ensures SpellsChar(key[a + i], name[i], dash) {
      FoldedChar(key, dash, i, name[i]);
      assert Strip(key)[i] == key[a + i];
    }
    assert SpellsAt(key, a, name, dash);
  }

  lemma FoldedLength(key: string, dash: bool)
    ensures |Folded(key, dash)| == |Strip(key)|
  {
    hide Strip;
  }

  lemma SpelledIsNotWhite(c: char, n: char, dash: bool)
    requires SpellsChar(c, n, dash) && ('a' <= n <= 'z' || n == '_' || n == '-')
    ensures !IsWhite(c)
  {
  }

  lemma SpelledCore(key: string, a: nat, name: string, dash: bool)
    requires IsName(name, dash) && SpellsAt(key, a, name, dash)
    ensures Strip(key) == key[a..a + |name|]
  {
    hide SpellsChar, StripBy, IsWhite;
    var n := |name| - 1;
    assert SpellsChar(key[a + 0], name[0], dash) && SpellsChar(key[a + n], name[n], dash);
    SpelledIsNotWhite(key[a], name[0], dash);
    SpelledIsNotWhite(key[a + n], name[n], dash);
    StripIs(key, a, a + |name|, IsWhite);
  }

  lemma SpelledIsFolded(key: string, a: nat, name: string, dash: bool)
    requires IsName(name, dash) && SpellsAt(key, a, name, dash)
    ensures Folded(key, dash) == name
  {
    hide Folded, Strip, SpellsChar;
    SpelledCore(key, a, name, dash);
    FoldedLength(key, dash);
    forall i | 0 <= i < |name| ensures Folded(key, dash)[i] == name[i] {
      assert Strip(key)[i] == key[a + i] && SpellsChar(key[a + i], name[i], dash);
      FoldedChar(key, dash, i, name[i]);
    }
  }

  lemma FoldedSpells(key: string, name: string, dash: bool)
    requires IsName(name, dash)
    ensures Folded(key, dash) == name <==> SpellsName(key, name, dash)
  {
    hide Folded, IsName, SpellsAt;
    if Folded(key, dash) == name { FoldedIsSpelled(key, name, dash); }
    if a: nat :| SpellsAt(key, a, name, dash) { SpelledIsFolded(key, a, name, dash); }
  }

  lemma SensitiveByName(key: string)
    ensures IsSensitiveKey(key) <==> IsFieldName(Folded(key, true))
    ensures IsSensitiveHeader(key) <==> IsHeaderName(Folded(key, false))
  {
    hide Fold, DashToUnderscore;
  }

  lemma FieldSpelled(key: string, name: string)
    requires IsFieldName(name)
    ensures Folded(key, true) == name <==> SpellsName(key, name, true)
  {
    hide *;
    FieldNames(name);
    FoldedSpells(key, name, true);
  }

  lemma HeaderSpelled(key: string, name: string)
    requires IsHeaderName(name)
    ensures Folded(key, false) == name <==> SpellsName(key, name, false)
  {
    hide *;
    HeaderNames(name);
    FoldedSpells(key, name, false);
  }

  lemma SensitiveExactly(key: string)
    ensures Sensitive(key) <==> HidesValue(key)
  {
    SensitiveByName(key);
    hide IsSensitiveKey, IsSensitiveHeader, IsFieldName, IsHeaderName, SpellsName, Folded;
    if IsFieldName(Folded(key, true)) { FieldSpelled(key, Folded(key, true)); }
    if IsHeaderName(Folded(key, false)) { HeaderSpelled(key, Folded(key, false)); }
    if name :| IsFieldName(name) && SpellsName(key, name, true) { FieldSpelled(key, name); }
    if name :| IsHeaderName(name) && SpellsName(key, name, false) { HeaderSpelled(key, name); }
  }

  /** What a caller finds under the keys of a redacted mapping. */
  lemma SensitiveKeysHoldMarker(data: map<string, Value>, key: string)
    requires key in data
    ensures var r := Redacted(Map(data)).entries;
            key in r && (if HidesValue(key) then r[key] == Str("<redacted>") else SameShape(data[key], r[key]))
  {
    SensitiveExactly(key);
    RedactedIsClean(data[key]);
    hide Sensitive, HidesValue, SameShape;
  }

  /** The loguru record `redact_log_record` patches in place. */
  class LogRecord {
    var message: Option<Value>
    var extra: Option<Value>

    constructor (message: Option<Value>, extra: Option<Value>)
      ensures this.message == message && this.extra == extra
    {
      this.message, this.extra := message, extra;
    }

    /** Afterwards the message, if it is text, and the extra, if it is a mapping, are clean;
        anything else is left alone, and a second patch would change nothing. */
    method Patch()
      modifies this
      ensures match old(message)
              case Some(Str(text)) => message.Some? && message.value == Redacted(Str(text)) && Clean(message.value)
              case _ => message == old(message)
      ensures match old(extra)
              case Some(Map(entries)) => extra.Some? && extra.value == Redacted(Map(entries)) && Clean(extra.value)
              case _ => extra == old(extra)
    {
      hide Sensitive, RedactString;
      if message.Some? && message.value.Str? {
        RedactedIsClean(message.value);
        message := Some(Str(RedactString(message.value.text)));
      }
      if extra.Some? && extra.value.Map? {
        RedactedIsClean(extra.value);
        var m := RedactMapping(extra.value.entries);
        extra := Some(Map(m));
      }
    }
  }
}
