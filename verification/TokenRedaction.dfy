/** `redact_string`: the inline `key=value` redactor (security/redaction.py).

    `IsMatch` is the regular expression read as a grammar: a split of the text that
    satisfies every part of the pattern, with no word on how it is found.  `MatchAt`
    is the scanner.  The scanner finds a match exactly where the grammar has one, and
    always the longest; and what the redactor writes has no match left in it. */
module TokenRedaction {
  import opened Text

  const TOKEN_KEYS: set<string> := {
    "access_token", "refresh_token", "id_token", "client_secret", "api_key", "apikey",
    "password", "passphrase", "private_key", "secret", "token"
  }

  const MARK: string := "=<redacted>"

  predicate IsKey(k: string) { Lower(k) in TOKEN_KEYS }

  predicate IsSeparator(c: char) { c == ':' || c == '=' }

  predicate IsValue(c: char) {
    IsWord(c) || c == '.' || c == '~' || c == '+' || c == '/' || c == '=' || c == '-'
  }

  /** `\b` in front of a key: every key starts with a word character. */
  predicate AtBoundary(s: string, p: nat)
    requires p <= |s|
  {
    p == 0 || !IsWord(s[p - 1])
  }

  /** Where the parts of one match lie: the key ends at `keyEnd`, the separator is at
      `colon`, the value is `value..valueEnd`, and the match ends at `end`. */
  datatype Parts = Parts(keyEnd: nat, colon: nat, value: nat, valueEnd: nat, end: nat)

  predicate Ordered(s: string, p: nat, m: Parts) {
    p < m.keyEnd <= m.colon < m.value && m.value + 4 <= m.valueEnd <= m.end <= |s|
  }

  /** `['"]?\s*` over `s[a..b]`. */
  ghost predicate QuoteThenSpaces(s: string, a: nat, b: nat)
    requires a <= b <= |s|
  {
    Each(s, a, b, IsSpace) || (a < b && IsQuote(s[a]) && Each(s, a + 1, b, IsSpace))
  }

  /** `\s*['"]?` over `s[a..b]`. */
  ghost predicate SpacesThenQuote(s: string, a: nat, b: nat)
    requires a <= b <= |s|
  {
    Each(s, a, b, IsSpace) || (a < b && Each(s, a, b - 1, IsSpace) && IsQuote(s[b - 1]))
  }

  /** The pattern after its `\b`. */
  ghost predicate IsBody(s: string, p: nat, m: Parts) {
    && Ordered(s, p, m)
    && IsKey(s[p..m.keyEnd])
    && QuoteThenSpaces(s, m.keyEnd, m.colon)
    && IsSeparator(s[m.colon])
    && SpacesThenQuote(s, m.colon + 1, m.value)
    && Each(s, m.value, m.valueEnd, IsValue)
    && (m.end == m.valueEnd || (m.end == m.valueEnd + 1 && IsQuote(s[m.valueEnd])))
  }

  ghost predicate IsMatch(s: string, p: nat, m: Parts) {
    IsBody(s, p, m) && (p == 0 || !IsWord(s[p - 1]))
  }

  /** No substring matches the token pattern. */
  ghost predicate NormalForm(s: string) {
    forall p: nat, m: Parts :: !IsMatch(s, p, m)
  }

  function SkipQuote(s: string, p: nat): nat
    requires p <= |s|
    ensures p <= SkipQuote(s, p) <= |s|
  {
    if p < |s| && IsQuote(s[p]) then p + 1 else p
  }

  /** One attempt of the scanner at position `p`. */
  function MatchAt(s: string, p: nat): (r: Option<Parts>)
    requires p <= |s|
    ensures r.Some? ==> Ordered(s, p, r.value)
  {
    var keyEnd := RunEnd(s, p, IsWord);
    if !AtBoundary(s, p) || !IsKey(s[p..keyEnd]) then None else
    var colon := RunEnd(s, SkipQuote(s, keyEnd), IsSpace);
    if colon == |s| || !IsSeparator(s[colon]) then None else
    var value := SkipQuote(s, RunEnd(s, colon + 1, IsSpace));
    var valueEnd := RunEnd(s, value, IsValue);
    if valueEnd < value + 4 then None
    else
      assert IsKey(s[p..keyEnd]) ==> |Lower(s[p..keyEnd])| > 0;
      Some(Parts(keyEnd, colon, value, valueEnd, SkipQuote(s, valueEnd)))
  }

  /** `TOKENISH_PATTERN.sub` from position `p` on: the key group is kept as written. */
  function RedactFrom(s: string, p: nat): string
    requires p <= |s|
    decreases |s| - p
  {
    if p == |s| then "" else
    match MatchAt(s, p)
    case Some(m) => s[p..m.keyEnd] + MARK + RedactFrom(s, m.end)
    case None => [s[p]] + RedactFrom(s, p + 1)
  }

  function RedactString(s: string): string { RedactFrom(s, 0) }

  // ------------------------------------------------------------------
  // The scanner decides the grammar
  // ------------------------------------------------------------------

  lemma KeyShape(k: string)
    requires IsKey(k)
    ensures |k| >= 5 && Each(k, 0, |k|, IsWord)
  {
    var low := Lower(k);
    forall i | 0 <= i < |k| ensures IsWord(k[i]) {
      assert IsWord(low[i]);
    }
  }

  lemma ScannerSound(s: string, p: nat)
    requires p <= |s| && MatchAt(s, p).Some?
    ensures var m := MatchAt(s, p).value;
            && IsMatch(s, p, m) && IsKey(s[p..m.keyEnd])
            && (AtBoundary(s, m.end) || m.end == |s| || !IsValue(s[m.end]))
  {
  }

  /** The regular expression backtracks; the scanner does not have to.  Wherever any split
      satisfies the pattern the scanner succeeds, with the same key, separator and value
      start, and a value and closing quote at least as long. */
  lemma ScannerComplete(s: string, p: nat, m: Parts)
    requires IsMatch(s, p, m)
    ensures MatchAt(s, p).Some?
    ensures var g := MatchAt(s, p).value;
            g.keyEnd == m.keyEnd && g.colon == m.colon && g.value == m.value
            && m.valueEnd <= g.valueEnd && m.end <= g.end
  {
    hide IsKey, RunEnd;
    KeyShape(s[p..m.keyEnd]);
    assert forall k :: p <= k < m.keyEnd ==> s[k] == s[p..m.keyEnd][k - p];
    RunIs(s, p, m.keyEnd, IsWord);
    RunIs(s, SkipQuote(s, m.keyEnd), m.colon, IsSpace);
    var b := if IsQuote(s[m.value - 1]) then m.value - 1 else m.value;
    RunIs(s, m.colon + 1, b, IsSpace);
    RunCovers(s, m.value, m.valueEnd, IsValue);
  }

  /** A run that is followed by something outside its class ends where it is said to. */
  lemma RunIs(s: string, p: nat, e: nat, f: char -> bool)
    requires p <= e < |s| && Each(s, p, e, f) && !f(s[e])
    ensures RunEnd(s, p, f) == e
  {
  }

  lemma RunCovers(s: string, p: nat, e: nat, f: char -> bool)
    requires p <= e <= |s| && Each(s, p, e, f)
    ensures e <= RunEnd(s, p, f)
  {
  }

  // ------------------------------------------------------------------
  // The output is in normal form
  // ------------------------------------------------------------------

  /** No character of a match, before its closing quote, is an angle bracket, and the
      character before the value is never a word character. */
  lemma BodyCharacters(s: string, p: nat, m: Parts)
    requires IsBody(s, p, m)
    ensures Ordered(s, p, m)
    ensures forall k :: p <= k < m.valueEnd ==> s[k] != '<' && s[k] != '>'
    ensures forall k :: p <= k < m.keyEnd ==> IsWord(s[k])
    ensures !IsWord(s[m.keyEnd]) && !IsWord(s[m.value - 1])
    ensures forall k :: m.value <= k < m.valueEnd ==> IsValue(s[k])
  {
    KeyShape(s[p..m.keyEnd]);
    assert forall k :: p <= k < m.keyEnd ==> s[k] == s[p..m.keyEnd][k - p];
  }

  function Shift(m: Parts, d: int): Parts
    requires m.keyEnd + d >= 0 && m.colon + d >= 0 && m.value + d >= 0 && m.valueEnd + d >= 0 && m.end + d >= 0
  {
    Parts(m.keyEnd + d, m.colon + d, m.value + d, m.valueEnd + d, m.end + d)
  }

  lemma EachMoves(s: string, a: nat, b: nat, t: string, d: int, f: char -> bool)
    requires a <= b <= |s| && 0 <= a + d && b + d <= |t|
    requires forall k :: a <= k < b ==> t[k + d] == s[k]
    requires Each(s, a, b, f)
    ensures Each(t, a + d, b + d, f)
  {
    forall k | a + d <= k < b + d ensures f(t[k]) {
      assert t[(k - d) + d] == s[k - d];
    }
  }

  /** A match only depends on the text it covers. */
  lemma BodyMoves(s: string, p: nat, t: string, d: int, m: Parts)
    requires IsBody(s, p, m)
    requires 0 <= p + d && m.end + d <= |t|
    requires forall k :: p <= k < m.end ==> t[k + d] == s[k]
    ensures IsBody(t, p + d, Shift(m, d))
  {
    hide IsKey, IsValue, IsSpace, IsWord, Each;
    assert t[p + d..m.keyEnd + d] == s[p..m.keyEnd];
    if Each(s, m.keyEnd, m.colon, IsSpace) {
      EachMoves(s, m.keyEnd, m.colon, t, d, IsSpace);
    } else {
      EachMoves(s, m.keyEnd + 1, m.colon, t, d, IsSpace);
    }
    if Each(s, m.colon + 1, m.value, IsSpace) {
      EachMoves(s, m.colon + 1, m.value, t, d, IsSpace);
    } else {
      EachMoves(s, m.colon + 1, m.value - 1, t, d, IsSpace);
    }
    EachMoves(s, m.value, m.valueEnd, t, d, IsValue);
  }

  /** Cutting the closing quote, or a longer piece of the value, leaves a match. */
  lemma BodyShortens(s: string, p: nat, m: Parts, e: nat)
    requires IsBody(s, p, m) && m.value + 4 <= e <= m.valueEnd
    ensures IsBody(s, p, m.(valueEnd := e, end := e))
  {
  }

  /** The first match at or after `p`, or the end of the text. */
  function NextMatch(s: string, p: nat): (q: nat)
    requires p <= |s|
    ensures p <= q <= |s|
    ensures forall k: nat :: p <= k < q ==> MatchAt(s, k).None?
    ensures q < |s| ==> MatchAt(s, q).Some?
    decreases |s| - p
  {
    hide MatchAt;
    if p == |s| || MatchAt(s, p).Some? then p else NextMatch(s, p + 1)
  }

  /** What the redactor writes from a match on, or from the end of the text. */
  function FromMatch(s: string, q: nat): string
    requires q <= |s| && (q < |s| ==> MatchAt(s, q).Some?)
  {
    if q == |s| then "" else var m := MatchAt(s, q).value; s[q..m.keyEnd] + MARK + RedactFrom(s, m.end)
  }

  lemma CopyStep(s: string, p: nat)
    requires p < |s| && MatchAt(s, p).None?
    ensures RedactFrom(s, p) == [s[p]] + RedactFrom(s, p + 1) && NextMatch(s, p) == NextMatch(s, p + 1)
  {
    hide MatchAt;
  }

  lemma MatchStep(s: string, p: nat)
    requires p <= |s| && (p < |s| ==> MatchAt(s, p).Some?)
    ensures RedactFrom(s, p) == FromMatch(s, p) && NextMatch(s, p) == p
  {
    hide MatchAt;
  }

  lemma {:induction false} CopiedThenReplaced(s: string, p: nat)
    requires p <= |s|
    ensures var q := NextMatch(s, p); RedactFrom(s, p) == s[p..q] + FromMatch(s, q)
    decreases |s| - p
  {
    hide *;
    if p < |s| && MatchAt(s, p).None? {
      CopyStep(s, p);
      CopiedThenReplaced(s, p + 1);
      var q := NextMatch(s, p);
      assert s[p..q] == [s[p]] + s[p + 1..q];
      Associates([s[p]], s[p + 1..q], FromMatch(s, q));
    } else {
      MatchStep(s, p);
      assert s[p..p] == "";
    }
  }

  lemma Associates(a: string, b: string, c: string)
    ensures a + (b + c) == (a + b) + c
  {
  }

  /** A match that runs into an inserted `key=<redacted>` has a match inside it that stops
      before the inserted separator. */
  lemma BodyStopsAtKey(copy: string, key: string, rest: string, m: Parts)
    requires IsKey(key) && IsBody(copy + key + MARK + rest, 0, m)
    ensures m.valueEnd <= |copy + key| || m.value + 4 <= |copy + key| < m.valueEnd
  {
    var t := copy + key + MARK + rest;
    var stop := |copy + key|;
    KeyShape(key);
    BodyCharacters(t, 0, m);
    hide IsKey, IsBody;
    assert t[stop + 1] == MARK[1];
    assert forall k :: |copy| <= k < stop ==> t[k] == key[k - |copy|];
  }

  /** A match at the very start of the output is a match of the input at the same place. */
  lemma StartComesFromInput(s: string, p: nat, m: Parts)
    requires p <= |s| && IsBody(RedactFrom(s, p), 0, m)
    ensures exists m' :: IsBody(s, p, m')
  {
    hide MatchAt, IsKey, RedactFrom, IsBody, NextMatch;
    var t, q := RedactFrom(s, p), NextMatch(s, p);
    CopiedThenReplaced(s, p);
    if q < |s| {
      ScannerSound(s, q);
      var g := MatchAt(s, q).value;
      var copy, key, rest := s[p..q], s[q..g.keyEnd], RedactFrom(s, g.end);
      assert FromMatch(s, q) == key + MARK + rest;
      hide FromMatch;
      assert t == copy + key + MARK + rest;
      BodyStopsAtKey(copy, key, rest, m);
      assert t[..g.keyEnd - p] == copy + key == s[p..g.keyEnd];
      BodyPrefix(t, s, p, g.keyEnd - p, m);
    } else {
      BodyCharacters(t, 0, m);
      BodyPrefix(t, s, p, q - p, m);
    }
  }

  lemma BodyPrefix(t: string, s: string, p: nat, stop: nat, m: Parts)
    requires IsBody(t, 0, m)
    requires m.valueEnd <= stop || m.value + 4 <= stop < m.valueEnd
    requires stop <= |t| && p + stop <= |s| && t[..stop] == s[p..p + stop]
    ensures exists m' :: IsBody(s, p, m')
  {
    hide IsKey;
    var e := if m.valueEnd <= stop then m.valueEnd else stop;
    BodyShortens(t, 0, m, e);
    forall k: nat | k < e ensures s[k + p] == t[k] {
      assert t[k] == t[..stop][k] == s[p..p + stop][k];
    }
    BodyMoves(t, 0, s, p, m.(valueEnd := e, end := e));
  }

  /** Nothing that starts inside an inserted `key=<redacted>` is a match. */
  lemma NoMatchInReplacement(key: string, rest: string, p: nat, m: Parts)
    requires IsKey(key) && p < |key + MARK|
    ensures !IsBody(key + MARK + rest, p, m)
  {
    var t, k := key + MARK + rest, |key|;
    KeyShape(key);
    hide IsKey;
    assert t[k] == MARK[0] && t[k + 1] == MARK[1] && t[k + 10] == MARK[10];
    assert forall i :: 0 <= i < k ==> t[i] == key[i];
    if IsBody(t, p, m) {
      BodyCharacters(t, p, m);
    }
  }

  lemma FirstCharacterKept(s: string, p: nat)
    requires p < |s|
    ensures |RedactFrom(s, p)| > 0 && RedactFrom(s, p)[0] == s[p]
  {
    if MatchAt(s, p).Some? {
      assert s[p..MatchAt(s, p).value.keyEnd][0] == s[p];
    }
  }

  /** Right after a replaced match no key can start: the value run was maximal. */
  lemma NoKeyAfterMatch(s: string, p: nat, m: Parts)
    requires p <= |s| && MatchAt(s, p).Some?
    requires !AtBoundary(s, MatchAt(s, p).value.end)
    ensures !IsBody(RedactFrom(s, MatchAt(s, p).value.end), 0, m)
  {
    hide MatchAt, IsKey;
    ScannerSound(s, p);
    var j := MatchAt(s, p).value.end;
    if j < |s| { FirstCharacterKept(s, j); }
    if IsBody(RedactFrom(s, j), 0, m) {
      BodyCharacters(RedactFrom(s, j), 0, m);
    }
  }

  lemma {:induction false} NormalFrom(s: string, p: nat)
    requires p <= |s|
    ensures forall q: nat, m :: q > 0 ==> !IsMatch(RedactFrom(s, p), q, m)
    ensures AtBoundary(s, p) ==> forall m :: !IsBody(RedactFrom(s, p), 0, m)
    decreases |s| - p
  {
    hide MatchAt, IsKey;
    var t := RedactFrom(s, p);
    if p < |s| {
      var skip, next := 1, p + 1;
      var r := MatchAt(s, p);
      if r.Some? {
        ScannerSound(s, p);
        skip, next := r.value.keyEnd - p + |MARK|, r.value.end;
      }
      var head, tail := t[..skip], RedactFrom(s, next);
      assert t == head + tail;
      NormalFrom(s, next);
      forall q: nat, m | q > 0 ensures !IsMatch(t, q, m) {
        if IsMatch(t, q, m) {
          NoLaterMatch(s, p, next, head, q, m);
        }
      }
      if AtBoundary(s, p) {
        forall m ensures !IsBody(t, 0, m) {
          if IsBody(t, 0, m) {
            if r.Some? {
              NoMatchInReplacement(s[p..r.value.keyEnd], tail, 0, m);
            } else {
              StartComesFromInput(s, p, m);
              var m' :| IsBody(s, p, m');
              ScannerComplete(s, p, m');
            }
          }
        }
      }
    }
  }

  /** The step of `NormalFrom` past the first character or the first replacement. */
  lemma NoLaterMatch(s: string, p: nat, next: nat, head: string, q: nat, m: Parts)
    requires p < |s| && p < next <= |s|
    requires match MatchAt(s, p)
             case Some(g) => next == g.end && head == s[p..g.keyEnd] + MARK
             case None => next == p + 1 && head == [s[p]]
    requires forall q: nat, m :: q > 0 ==> !IsMatch(RedactFrom(s, next), q, m)
    requires AtBoundary(s, next) ==> forall m :: !IsBody(RedactFrom(s, next), 0, m)
    requires q > 0
    ensures !IsMatch(head + RedactFrom(s, next), q, m)
  {
    hide MatchAt, IsKey, RedactFrom;
    var tail := RedactFrom(s, next);
    var t := head + tail;
    if IsMatch(t, q, m) {
      if q < |head| {
        ScannerSound(s, p);
        NoMatchInReplacement(s[p..MatchAt(s, p).value.keyEnd], tail, q, m);
      } else {
        var q', m' := q - |head|, Shift(m, -|head|);
        BodyMoves(t, q, tail, -|head|, m);
        if q' == 0 && MatchAt(s, p).Some? && !AtBoundary(s, next) {
          NoKeyAfterMatch(s, p, m');
        }
        var found := IsMatch(tail, q', m');
      }
    }
  }

  /** The main result: no string, however its keys, quotes and values interleave, comes
      out of the redactor with a match of the token pattern left in it. */
  lemma RedactedIsNormal(s: string)
    ensures NormalForm(RedactString(s))
  {
    NormalFrom(s, 0);
  }

  lemma {:induction false} NormalTextUnchanged(s: string, p: nat)
    requires p <= |s| && NormalForm(s)
    ensures RedactFrom(s, p) == s[p..]
    decreases |s| - p
  {
    hide MatchAt, IsMatch;
    if p < |s| {
      if MatchAt(s, p).Some? { ScannerSound(s, p); }
      NormalTextUnchanged(s, p + 1);
    }
  }

  /** The redactor changes a text exactly when the text has a match, and it is idempotent. */
  lemma RedactFixesNormalForms(s: string)
    ensures RedactString(s) == s <==> NormalForm(s)
    ensures RedactString(RedactString(s)) == RedactString(s)
  {
    RedactedIsNormal(s);
    if NormalForm(s) { NormalTextUnchanged(s, 0); }
    NormalTextUnchanged(RedactString(s), 0);
  }

  // ------------------------------------------------------------------
  // What is kept
  // ------------------------------------------------------------------

  /** One replaced match: `s[at..end]`, whose key `s[at..keyEnd]` is kept. */
  datatype Span = Span(at: nat, keyEnd: nat, end: nat)

  /** `spans` are greedy matches of `s`, in order and disjoint, and no match of the pattern
      starts in a gap between them. */
  ghost predicate AreMatches(s: string, p: nat, spans: seq<Span>)
    decreases |spans|
  {
    if |spans| == 0 then
      p <= |s| && forall k: nat, m :: p <= k < |s| ==> !IsMatch(s, k, m)
    else
      && var h := spans[0];
      && p <= h.at < h.keyEnd < h.end <= |s|
      && (forall k: nat, m :: p <= k < h.at ==> !IsMatch(s, k, m))
      && (exists m :: IsMatch(s, h.at, m) && m.keyEnd == h.keyEnd && m.end == h.end)
      && (forall m :: IsMatch(s, h.at, m) ==> m.keyEnd == h.keyEnd && m.end <= h.end)
      && AreMatches(s, h.end, spans[1..])
  }

  /** `s` from `p` with each span replaced and everything else copied in order. */
  ghost function Rebuild(s: string, p: nat, spans: seq<Span>): string
    requires AreMatches(s, p, spans)
    decreases |spans|
  {
    if |spans| == 0 then s[p..]
    else
      var h := spans[0];
      s[p..h.at] + s[h.at..h.keyEnd] + "=<redacted>" + Rebuild(s, h.end, spans[1..])
  }

  lemma GapIsClear(s: string, p: nat)
    requires p <= |s|
    ensures forall k: nat, m :: p <= k < NextMatch(s, p) ==> !IsMatch(s, k, m)
  {
    hide MatchAt, IsMatch;
    forall k: nat, m | p <= k < NextMatch(s, p) ensures !IsMatch(s, k, m) {
      if IsMatch(s, k, m) { ScannerComplete(s, k, m); }
    }
  }

  lemma MatchIsGreedy(s: string, q: nat)
    requires q < |s| && MatchAt(s, q).Some?
    ensures var m := MatchAt(s, q).value;
            && q < m.keyEnd < m.end <= |s| && IsMatch(s, q, m)
            && forall m' :: IsMatch(s, q, m') ==> m'.keyEnd == m.keyEnd && m'.end <= m.end
  {
    var m := MatchAt(s, q).value;
    ScannerSound(s, q);
    hide MatchAt, IsMatch;
    forall m' | IsMatch(s, q, m') ensures m'.keyEnd == m.keyEnd && m'.end <= m.end { ScannerComplete(s, q, m'); }
  }

  lemma OneMoreSpan(s: string, p: nat, h: Span, m: Parts, rest: seq<Span>)
    requires p <= h.at < h.keyEnd < h.end <= |s| && AreMatches(s, h.end, rest)
    requires (forall k: nat, m :: p <= k < h.at ==> !IsMatch(s, k, m)) && IsMatch(s, h.at, m)
    requires m.keyEnd == h.keyEnd && m.end == h.end
    requires forall m' :: IsMatch(s, h.at, m') ==> m'.keyEnd == h.keyEnd && m'.end <= h.end
    ensures AreMatches(s, p, [h] + rest)
    ensures Rebuild(s, p, [h] + rest) == s[p..h.at] + (s[h.at..h.keyEnd] + "=<redacted>" + Rebuild(s, h.end, rest))
  {
    hide IsMatch;
    assert ([h] + rest)[1..] == rest;
  }

  /** The redactor replaces exactly the leftmost, longest, non-overlapping matches and
      copies the rest in order. */
  lemma {:induction false} KeepsEverythingElse(s: string, p: nat) returns (spans: seq<Span>)
    requires p <= |s|
    ensures AreMatches(s, p, spans) && RedactFrom(s, p) == Rebuild(s, p, spans)
    decreases |s| - p
  {
    hide *;
    var q := NextMatch(s, p);
    CopiedThenReplaced(s, p);
    GapIsClear(s, p);
    if q == |s| {
      spans := [];
      NoSpans(s, p);
    } else {
      var m := MatchAt(s, q).value;
      MatchIsGreedy(s, q);
      var rest := KeepsEverythingElse(s, m.end);
      OneMoreSpan(s, p, Span(q, m.keyEnd, m.end), m, rest);
      FromMatchIs(s, q);
      spans := [Span(q, m.keyEnd, m.end)] + rest;
    }
  }

  lemma NoSpans(s: string, p: nat)
    requires p <= |s| && forall k: nat, m :: p <= k < |s| ==> !IsMatch(s, k, m)
    ensures AreMatches(s, p, []) && Rebuild(s, p, []) == s[p..|s|] + FromMatch(s, |s|)
  {
    hide IsMatch;
  }

  lemma FromMatchIs(s: string, q: nat)
    requires q < |s| && MatchAt(s, q).Some?
    ensures var m := MatchAt(s, q).value; FromMatch(s, q) == s[q..m.keyEnd] + "=<redacted>" + RedactFrom(s, m.end)
  {
    hide MatchAt, RedactFrom;
  }

  lemma {:induction false} SpansAreUnique(s: string, p: nat, a: seq<Span>, b: seq<Span>)
    requires AreMatches(s, p, a) && AreMatches(s, p, b)
    ensures a == b
    decreases |a|
  {
    hide IsMatch;
    if a != [] && b != [] {
      assert a[0] == b[0];
      SpansAreUnique(s, a[0].end, a[1..], b[1..]);
      assert a == [a[0]] + a[1..] && b == [b[0]] + b[1..];
    }
  }

  /** `t` is `s` with its matches replaced. */
  ghost predicate Replaced(s: string, t: string) {
    exists spans :: AreMatches(s, 0, spans) && t == Rebuild(s, 0, spans)
  }

  /** The redactor's output is the one text that is the input with its matches replaced. */
  lemma RedactedExactly(s: string, t: string)
    ensures Replaced(s, t) <==> t == RedactString(s)
  {
    hide AreMatches, Rebuild, RedactFrom;
    var spans := KeepsEverythingElse(s, 0);
    if other :| AreMatches(s, 0, other) && t == Rebuild(s, 0, other) { SpansAreUnique(s, 0, spans, other); }
  }

  /** `k` spells `name`, in letters of either case. */
  predicate Spells(k: string, name: string) {
    && |k| == |name|
    && forall i :: 0 <= i < |k| ==> k[i] == name[i] || ('A' <= k[i] <= 'Z' && k[i] - 'A' + 'a' == name[i])
  }

  /** The keys of the pattern, in any case. */
  lemma KeyExactly(k: string)
    ensures IsKey(k) <==>
              || Spells(k, "access_token") || Spells(k, "refresh_token") || Spells(k, "id_token")
              || Spells(k, "client_secret") || Spells(k, "api_key") || Spells(k, "apikey")
              || Spells(k, "password") || Spells(k, "passphrase") || Spells(k, "private_key")
              || Spells(k, "secret") || Spells(k, "token")
  {
    forall name | name in TOKEN_KEYS ensures Lower(k) == name <==> Spells(k, name) {
      KeysAreLower(name);
      LowerSpells(k, name);
    }
    hide Spells, Lower;
  }

  lemma LowerSpells(k: string, name: string)
    requires forall i :: 0 <= i < |name| ==> !('A' <= name[i] <= 'Z')
    ensures Lower(k) == name <==> Spells(k, name)
  {
    if Lower(k) == name { assert forall i :: 0 <= i < |k| ==> Lower(k)[i] == name[i]; }
    if Spells(k, name) { assert forall i :: 0 <= i < |k| ==> Lower(k)[i] == name[i]; }
  }

  lemma KeysAreLower(name: string)
    requires name in TOKEN_KEYS
    ensures forall i :: 0 <= i < |name| ==> !('A' <= name[i] <= 'Z')
  {
  }

  /** The characters of the pattern. */
  lemma CharactersExactly(c: char)
    ensures IsSeparator(c) <==> c in ":="
    ensures IsQuote(c) <==> c in "'\""
    ensures IsSpace(c) <==> c in " \t\n\U{b}\U{c}\r"
    ensures IsWord(c) <==> c == '_' || '0' <= c <= '9' || 'A' <= c <= 'Z' || 'a' <= c <= 'z'
    ensures IsValue(c) <==> IsWord(c) || c in ".~+/=-"
  {
  }

  /** A trimmed text stays trimmed: the redactor keeps the first character and ends with
      the last one or with the marker. */
  lemma {:induction false} RedactKeepsTrimmed(s: string, p: nat, f: char -> bool)
    requires p < |s| && !f(s[|s| - 1]) && !f('>')
    ensures var t := RedactFrom(s, p); |t| > 0 && !f(t[|t| - 1])
    decreases |s| - p
  {
    var next := if MatchAt(s, p).Some? then MatchAt(s, p).value.end else p + 1;
    var head := OneStep(s, p);
    hide *;
    if next < |s| { RedactKeepsTrimmed(s, next, f); } else { RestIsNothing(s); }
  }

  /** The first step of the redactor: a copied character, or a key and the marker. */
  lemma OneStep(s: string, p: nat) returns (head: string)
    requires p < |s|
    ensures var next := if MatchAt(s, p).Some? then MatchAt(s, p).value.end else p + 1;
            p < next <= |s| && RedactFrom(s, p) == head + RedactFrom(s, next)
    ensures head != "" && (head[|head| - 1] == '>' || (MatchAt(s, p).None? && head == [s[p]]))
  {
    hide MatchAt;
    head := if MatchAt(s, p).Some? then s[p..MatchAt(s, p).value.keyEnd] + MARK else [s[p]];
  }

  lemma RestIsNothing(s: string)
    ensures RedactFrom(s, |s|) == ""
  {
  }

  lemma RedactedTrimmed(s: string, f: char -> bool)
    requires TrimmedBy(s, f) && !f('>')
    ensures TrimmedBy(RedactString(s), f)
  {
    if s != "" {
      FirstCharacterKept(s, 0);
      RedactKeepsTrimmed(s, 0, f);
    }
  }
}
