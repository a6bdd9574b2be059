/** The text pre-screen: a cheap test on the raw JSON text for a quoted key
 *  that decodes to a forbidden name, standing where an object key stands.
 *  Each character of the name may be written literally or as a `\u00XX`
 *  escape of its code. The source writes the test as a regular expression;
 *  here it is a hand-written matcher (`Suspect`) together with a reference
 *  definition of the strings the expression matches (`PatternMatch`), and
 *  the two are proved equal. */
module PreScreen {
  import opened JsValues

  /** A key the matcher can look for: plain ASCII without a backslash, so
   *  that a literal character and the start of an escape never overlap. */
  predicate PlainKey(key: string) {
    forall i | 0 <= i < |key| :: key[i] as int < 128 && key[i] != '\\'
  }

  /** The characters the pattern accepts for one hex digit of value `d`:
   *  the decimal digit, or the letter in lower case, and also in upper case
   *  when `anyCase` holds. */
  function HexForms(d: nat, anyCase: bool): set<char>
    requires d < 16
  {
    if d < 10 then {('0' as int + d) as char}
    else if anyCase then {('a' as int + d - 10) as char, ('A' as int + d - 10) as char}
    else {('a' as int + d - 10) as char}
  }

  /** `e` is a six-character escape `\u00XX` of the ASCII character `c`,
   *  the hex digits of its code written in an accepted case. */
  predicate IsEscape(e: string, c: char, anyCase: bool)
    requires c as int < 128
  {
    |e| == 6 && e[0] == '\\' && e[1] == 'u' && e[2] == '0' && e[3] == '0'
    && e[4] in HexForms(c as int / 16, anyCase) && e[5] in HexForms(c as int % 16, anyCase)
  }

  /** One character of the key, literal or escaped: an `(?:c|\\u00XX)` group. */
  predicate IsCharForm(a: string, c: char, anyCase: bool)
    requires c as int < 128
  {
    a == [c] || IsEscape(a, c, anyCase)
  }

  /** `s` spells `key` character by character, each character in one of its
   *  forms. */
  predicate IsSpelling(s: string, key: string, anyCase: bool)
    requires PlainKey(key)
    decreases key
  {
    if key == [] then s == []
    else
      (|s| >= 1 && IsCharForm(s[..1], key[0], anyCase) && IsSpelling(s[1..], key[1..], anyCase))
      || (|s| >= 6 && IsCharForm(s[..6], key[0], anyCase) && IsSpelling(s[6..], key[1..], anyCase))
  }

  /** The whitespace class `\s` of JavaScript regular expressions. */
  predicate IsSpace(ch: char) {
    ch == '\t' || ch == '\n' || ch == '\U{0B}' || ch == '\U{0C}' || ch == '\r' || ch == ' '
    || ch == '\U{A0}' || ch == '\U{1680}' || ('\U{2000}' <= ch <= '\U{200A}')
    || ch == '\U{2028}' || ch == '\U{2029}' || ch == '\U{202F}' || ch == '\U{205F}'
    || ch == '\U{3000}' || ch == '\U{FEFF}'
  }

  predicate AllSpace(w: string) {
    forall i | 0 <= i < |w| :: IsSpace(w[i])
  }

  /** What follows the closing quote: with `colon`, `\s*:`; without it, nothing. */
  ghost predicate IsTail(t: string, colon: bool) {
    if colon then |t| > 0 && t[|t| - 1] == ':' && AllSpace(t[..|t| - 1]) else t == []
  }

  /** Reference definition of the pattern: somewhere in `text` stands a quote,
   *  a spelling of `key`, a quote and the tail. */
  ghost predicate PatternMatch(text: string, key: string, anyCase: bool, colon: bool)
    requires PlainKey(key)
  {
    exists i, s, t | 0 <= i <= |text| && IsSpelling(s, key, anyCase) && IsTail(t, colon) ::
      ['"'] + s + ['"'] + t <= text[i..]
  }

  /** Reads one spelling of `key` from `text[j..]` and gives the index just
   *  past it; `None` when no spelling starts there. At each position the
   *  literal character and an escape cannot both apply, so no backtracking
   *  is needed. */
  function MatchKey(text: string, j: nat, key: string, anyCase: bool): (r: Option<nat>)
    requires j <= |text| && PlainKey(key)
    ensures r.Some? ==> j + |key| <= r.value <= |text|
    decreases key
  {
    if key == [] then Some(j)
    else if j < |text| && text[j] == key[0] then MatchKey(text, j + 1, key[1..], anyCase)
    else if j + 6 <= |text| && IsEscape(text[j..j + 6], key[0], anyCase) then MatchKey(text, j + 6, key[1..], anyCase)
    else None
  }

  /** The first index at or after `k` that does not hold whitespace. */
  function SkipSpace(text: string, k: nat): (r: nat)
    requires k <= |text|
    ensures k <= r <= |text|
    ensures AllSpace(text[k..r])
    ensures r < |text| ==> !IsSpace(text[r])
    decreases |text| - k
  {
    if k < |text| && IsSpace(text[k]) then SkipSpace(text, k + 1) else k
  }

  /** The pattern matches with its opening quote at `text[i]`. */
  predicate MatchesAt(text: string, i: nat, key: string, anyCase: bool, colon: bool)
    requires i <= |text| && PlainKey(key)
  {
    i < |text| && text[i] == '"' &&
    match MatchKey(text, i + 1, key, anyCase)
    case None => false
    case Some(e) =>
      e < |text| && text[e] == '"' &&
      (!colon || var k := SkipSpace(text, e + 1); k < |text| && text[k] == ':')
  }

  /** The pattern matches at some position at or after `i`. */
  predicate SearchFrom(text: string, i: nat, key: string, anyCase: bool, colon: bool)
    requires i <= |text| && PlainKey(key)
    decreases |text| - i
  {
    i < |text| && (MatchesAt(text, i, key, anyCase, colon) || SearchFrom(text, i + 1, key, anyCase, colon))
  }

  /** `rx.test(text)`. */
  predicate Suspect(text: string, key: string, anyCase: bool, colon: bool)
    requires PlainKey(key)
  {
    SearchFrom(text, 0, key, anyCase, colon)
  }

  /** `suspectProtoRx.test(text)` of index.js. */
  predicate SuspectProto(text: string) {
    Suspect(text, ProtoKey, true, true)
  }

  /** `suspectConstructorRx.test(text)` of index.js. */
  predicate SuspectConstructor(text: string) {
    Suspect(text, ConstructorKey, true, true)
  }
}
