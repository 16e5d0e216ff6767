/** What constructing a record or a configuration does to its texts (`str_strip_whitespace`,
    models/base.py): fields, elements and mapping keys are stripped. */
module ModelText {
  import opened Text

  function StripText(s: string): string { StripBy(s, IsModelWhite) }

  function StripOption(s: Option<string>): Option<string> {
    if s.Some? then Some(StripText(s.value)) else None
  }

  function StripTexts(items: seq<string>): seq<string> {
    seq(|items|, i requires 0 <= i < |items| => StripText(items[i]))
  }

  /** Which of two keys that become equal wins is left open. */
  ghost function StripKeys<T>(m: map<string, T>): map<string, T> {
    map s | s in StrippedKeys(m) :: m[KeyBehind(m, s)]
  }

  function StrippedKeys<T>(m: map<string, T>): set<string> { set k | k in m :: StripText(k) }

  ghost function KeyBehind<T>(m: map<string, T>, s: string): (k: string)
    requires s in StrippedKeys(m)
    ensures k in m && StripText(k) == s
  {
    var k :| k in m && StripText(k) == s;
    k
  }

  /** Keys and values of a mapping from text to text. */
  ghost function StripMapping(m: map<string, string>): map<string, string> {
    map k | k in StripKeys(m) :: StripText(StripKeys(m)[k])
  }

  predicate Clipped(s: string) { TrimmedBy(s, IsModelWhite) }

  predicate ClippedOption(s: Option<string>) { s.Some? ==> Clipped(s.value) }

  predicate ClippedMapping(m: map<string, string>) { forall k :: k in m ==> Clipped(k) && Clipped(m[k]) }

  lemma StripClipped(s: string)
    requires Clipped(s)
    ensures StripText(s) == s
  {
    StripTrimmed(s, IsModelWhite);
  }

  lemma StripClips(s: string)
    ensures Clipped(StripText(s))
  {
    StrippedIsTrimmed(s, IsModelWhite);
  }

  lemma StripOptionClipped(s: Option<string>)
    requires ClippedOption(s)
    ensures StripOption(s) == s
  {
    if s.Some? { StripClipped(s.value); }
  }

  lemma StripKeysClipped<T>(m: map<string, T>)
    requires forall k :: k in m ==> Clipped(k)
    ensures StripKeys(m) == m
  {
    hide StripText, Clipped;
    forall k | k in m ensures StripText(k) == k { StripClipped(k); }
    assert StrippedKeys(m) == m.Keys;
  }

  lemma StripKeysClips<T>(m: map<string, T>)
    ensures forall s :: s in StripKeys(m) ==> Clipped(s)
  {
    hide StripText, Clipped;
    forall s | s in StripKeys(m) ensures Clipped(s) {
      assert StripText(KeyBehind(m, s)) == s;
      StripClips(KeyBehind(m, s));
    }
  }

  lemma StripOptionClips(s: Option<string>)
    ensures ClippedOption(StripOption(s))
  {
    if s.Some? { StripClips(s.value); }
  }

  lemma StripTextsClips(items: seq<string>)
    ensures |StripTexts(items)| == |items| && forall i :: 0 <= i < |items| ==> Clipped(StripTexts(items)[i])
  {
    hide StripText, Clipped;
    forall i | 0 <= i < |items| ensures Clipped(StripText(items[i])) { StripClips(items[i]); }
  }

  // Stripping twice is stripping once.

  lemma OptionTwice(s: Option<string>)
    ensures StripOption(StripOption(s)) == StripOption(s)
  {
    if s.Some? { StripClips(s.value); StripClipped(StripText(s.value)); }
  }

  lemma TextsTwice(items: seq<string>)
    ensures StripTexts(StripTexts(items)) == StripTexts(items)
  {
    hide StripText, Clipped;
    forall i | 0 <= i < |items| ensures StripText(StripText(items[i])) == StripText(items[i]) {
      StripClips(items[i]);
      StripClipped(StripText(items[i]));
    }
  }

  lemma KeysTwice<T>(m: map<string, T>)
    ensures StripKeys(StripKeys(m)) == StripKeys(m)
  {
    StripKeysClips(m);
    StripKeysClipped(StripKeys(m));
  }

  lemma MappingTwice(m: map<string, string>)
    ensures ClippedMapping(StripMapping(m)) && StripMapping(StripMapping(m)) == StripMapping(m)
  {
    hide StripText, Clipped, StripKeys;
    var once := StripMapping(m);
    StripKeysClips(m);
    forall k | k in once ensures Clipped(k) && Clipped(once[k]) && StripText(once[k]) == once[k] {
      StripClips(StripKeys(m)[k]);
      StripClipped(once[k]);
    }
    StripKeysClipped(once);
  }
}
