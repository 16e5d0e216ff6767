/** Character classes and small text helpers shared by the redaction, path and
    identifier modules. */
module Text {

  datatype Option<+T> = None | Some(value: T)

  predicate IsDigit(c: char) { '0' <= c <= '9' }

  predicate IsAlpha(c: char) { 'a' <= c <= 'z' || 'A' <= c <= 'Z' }

  predicate IsAlnum(c: char) { IsAlpha(c) || IsDigit(c) }

  /** `\w` under `re.ASCII`. */
  predicate IsWord(c: char) { IsAlnum(c) || c == '_' }

  /** `\s` under `re.ASCII`: space, tab, newline, vertical tab, form feed, return. */
  predicate IsSpace(c: char) { c == ' ' || '\t' <= c <= '\r' }

  predicate IsQuote(c: char) { c == '\'' || c == '"' }

  function LowerChar(c: char): char {
    if 'A' <= c <= 'Z' then c - 'A' + 'a' else c
  }

  function Lower(s: string): (r: string)
    ensures |r| == |s| && forall i :: 0 <= i < |s| ==> r[i] == LowerChar(s[i])
  {
    seq(|s|, i requires 0 <= i < |s| => LowerChar(s[i]))
  }

  /** Every character of `s[a..b]` is of class `f`. */
  ghost predicate Each(s: string, a: nat, b: nat, f: char -> bool)
    requires a <= b <= |s|
  {
    forall k :: a <= k < b ==> f(s[k])
  }

  /** The end of the maximal run of characters of class `f` that starts at `p`. */
  function RunEnd(s: string, p: nat, f: char -> bool): (e: nat)
    requires p <= |s|
    ensures p <= e <= |s| && Each(s, p, e, f)
    ensures e == |s| || !f(s[e])
    decreases |s| - p
  {
    if p == |s| || !f(s[p]) then p else RunEnd(s, p + 1, f)
  }

  /** The characters `str.strip()` removes: the Unicode white space. */
  predicate IsWhite(c: char) {
    || '\t' <= c <= '\r' || '\U{1c}' <= c <= ' ' || c == '\U{85}' || c == '\U{a0}'
    || c == '\U{1680}' || '\U{2000}' <= c <= '\U{200a}' || c == '\U{2028}' || c == '\U{2029}'
    || c == '\U{202f}' || c == '\U{205f}' || c == '\U{3000}'
  }

  /** The characters the record models strip: the Unicode property White_Space, which does
      not include the four separators U+001C to U+001F. */
  predicate IsModelWhite(c: char) { IsWhite(c) && !('\U{1c}' <= c <= '\U{1f}') }

  /** The two sets of white space, code point by code point. */
  lemma WhiteExactly(c: char)
    ensures IsModelWhite(c) <==>
              || c == '\t' || c == '\n' || c == '\U{b}' || c == '\U{c}' || c == '\r' || c == ' ' || c == '\U{85}'
              || c == '\U{a0}' || c == '\U{1680}' || '\U{2000}' <= c <= '\U{200a}' || c == '\U{2028}'
              || c == '\U{2029}' || c == '\U{202f}' || c == '\U{205f}' || c == '\U{3000}'
    ensures IsWhite(c) <==> IsModelWhite(c) || c == '\U{1c}' || c == '\U{1d}' || c == '\U{1e}' || c == '\U{1f}'
  {
  }

  function StripLeft(s: string, f: char -> bool): (r: string)
    ensures |r| <= |s| && r == s[|s| - |r|..]
    ensures r == "" || !f(r[0])
  {
    if s == "" || !f(s[0]) then s else StripLeft(s[1..], f)
  }

  function StripRight(s: string, f: char -> bool): (r: string)
    ensures |r| <= |s| && r == s[..|r|]
    ensures r == "" || !f(r[|r| - 1])
  {
    if s == "" || !f(s[|s| - 1]) then s else StripRight(s[..|s| - 1], f)
  }

  function StripBy(s: string, f: char -> bool): string {
    StripRight(StripLeft(s, f), f)
  }

  /** `str.strip()`. */
  function Strip(s: string): string { StripBy(s, IsWhite) }

  /** A text that stripping leaves alone. */
  predicate TrimmedBy(s: string, f: char -> bool) {
    s == "" || (!f(s[0]) && !f(s[|s| - 1]))
  }

  lemma StripTrimmed(s: string, f: char -> bool)
    requires TrimmedBy(s, f)
    ensures StripBy(s, f) == s
  {
  }

  lemma StrippedIsTrimmed(s: string, f: char -> bool)
    ensures TrimmedBy(StripBy(s, f), f)
  {
    var left := StripLeft(s, f);
    var right := StripRight(left, f);
    assert right != "" ==> right[0] == left[0];
  }

  /** Stripping takes a stretch of the text: what it drops is of class `f`, and the ends of what
      it keeps are not. */
  lemma StripsAt(s: string, f: char -> bool) returns (a: nat)
    ensures var r := StripBy(s, f);
            && a + |r| <= |s| && r == s[a..a + |r|] && TrimmedBy(r, f)
            && (forall i :: 0 <= i < a ==> f(s[i])) && (forall i :: a + |r| <= i < |s| ==> f(s[i]))
  {
    var left := StripLeft(s, f);
    StripLeftDrops(s, f);
    StripRightDrops(left, f);
    StrippedIsTrimmed(s, f);
    a := |s| - |left|;
    var r := StripBy(s, f);
    assert r == left[..|r|] && left == s[a..];
    hide StripLeft, StripRight, StripBy;
    forall i | a + |r| <= i < |s| ensures f(s[i]) { assert s[i] == left[i - a]; }
  }

  lemma StripLeftKeeps(s: string, f: char -> bool)
    requires s == "" || !f(s[0])
    ensures StripLeft(s, f) == s
  {
  }

  lemma {:induction false} StripLeftDrops(s: string, f: char -> bool)
    ensures forall i :: 0 <= i < |s| - |StripLeft(s, f)| ==> f(s[i])
  {
    if s != "" && f(s[0]) {
      StripLeftDrops(s[1..], f);
      assert forall i :: 1 <= i < |s| ==> s[i] == s[1..][i - 1];
    }
  }

  lemma {:induction false} StripRightDrops(s: string, f: char -> bool)
    ensures forall i :: |StripRight(s, f)| <= i < |s| ==> f(s[i])
  {
    if s != "" && f(s[|s| - 1]) { StripRightDrops(s[..|s| - 1], f); }
  }

  /** And it is the only stretch with these properties. */
  lemma StripIs(s: string, a: nat, e: nat, f: char -> bool)
    requires a < e <= |s| && !f(s[a]) && !f(s[e - 1])
    requires (forall i :: 0 <= i < a ==> f(s[i])) && (forall i :: e <= i < |s| ==> f(s[i]))
    ensures StripBy(s, f) == s[a..e]
  {
    var b := StripsAt(s, f);
    var r := StripBy(s, f);
    hide StripBy;
    assert b <= a < b + |r|;
    assert r[0] == s[b] && r[|r| - 1] == s[b + |r| - 1];
  }

  /** `sep.join(parts)` for a one-character separator. */
  function Join(parts: seq<string>, sep: char): string {
    if |parts| == 0 then ""
    else if |parts| == 1 then parts[0]
    else parts[0] + [sep] + Join(parts[1..], sep)
  }

  /** `text.split(sep)`: never empty, `""` splits to `[""]`. */
  function Split(text: string, sep: char): (parts: seq<string>)
    ensures |parts| > 0
    ensures forall i :: 0 <= i < |parts| ==> sep !in parts[i]
    decreases |text|
  {
    var e := RunEnd(text, 0, c => c != sep);
    if e == |text| then [text] else [text[..e]] + Split(text[e + 1..], sep)
  }

  /** The first run of a text that starts with a separator-free piece. */
  lemma RunEndOfPiece(piece: string, rest: string, sep: char)
    requires sep !in piece
    requires rest == "" || rest[0] == sep
    ensures RunEnd(piece + rest, 0, c => c != sep) == |piece|
  {
    var text := piece + rest;
    assert forall k :: 0 <= k < |piece| ==> text[k] == piece[k] && piece[k] in piece;
    assert rest != "" ==> text[|piece|] == rest[0];
    assert RunEnd(text, 0, c => c != sep) <= |text|;
  }

  lemma {:induction false} SplitOfJoin(parts: seq<string>, sep: char)
    requires |parts| > 0
    requires forall i :: 0 <= i < |parts| ==> sep !in parts[i]
    ensures Split(Join(parts, sep), sep) == parts
  {
    var text := Join(parts, sep);
    if |parts| == 1 {
      RunEndOfPiece(parts[0], "", sep);
      assert parts[0] + "" == text;
    } else {
      var tail := Join(parts[1..], sep);
      RunEndOfPiece(parts[0], [sep] + tail, sep);
      assert parts[0] + ([sep] + tail) == text;
      assert text[..|parts[0]|] == parts[0];
      assert text[|parts[0]| + 1..] == tail;
      SplitOfJoin(parts[1..], sep);
    }
  }

  lemma {:induction false} JoinOfSplit(text: string, sep: char)
    ensures Join(Split(text, sep), sep) == text
    decreases |text|
  {
    var e := RunEnd(text, 0, c => c != sep);
    if e < |text| {
      JoinOfSplit(text[e + 1..], sep);
      assert text == text[..e] + [sep] + text[e + 1..];
    }
  }
}
