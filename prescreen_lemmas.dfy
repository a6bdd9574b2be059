/** What the pre-screen matcher decides, proved against the reference
 *  definition of the pattern, and the examples the test suites assert. */
module PreScreenFacts {
  import opened JsValues
  import opened PreScreen

  lemma {:induction false} MatchKeySound(text: string, j: nat, key: string, anyCase: bool)
    requires j <= |text| && PlainKey(key)
    requires MatchKey(text, j, key, anyCase).Some?
    ensures IsSpelling(text[j..MatchKey(text, j, key, anyCase).value], key, anyCase)
    decreases key
  {
    var e := MatchKey(text, j, key, anyCase).value;
    if key == [] {
      assert text[j..e] == [];
    } else {
      var n: nat := if j < |text| && text[j] == key[0] then 1 else 6;
      assert MatchKey(text, j, key, anyCase) == MatchKey(text, j + n, key[1..], anyCase);
      MatchKeySound(text, j + n, key[1..], anyCase);
      var s := text[j..e];
      assert s[..n] == text[j..j + n] && s[n..] == text[j + n..e];
    }
  }

  lemma {:induction false} MatchKeyComplete(text: string, j: nat, key: string, anyCase: bool, s: string)
    requires PlainKey(key) && IsSpelling(s, key, anyCase)
    requires j + |s| <= |text| && text[j..j + |s|] == s
    ensures MatchKey(text, j, key, anyCase) == Some(j + |s|)
    decreases key
  {
    if key != [] {
      var n: nat := if |s| >= 1 && IsCharForm(s[..1], key[0], anyCase) && IsSpelling(s[1..], key[1..], anyCase) then 1 else 6;
      assert text[j..j + n] == s[..n];
      assert text[j + n..j + |s|] == s[n..];
      if s[..n] == [key[0]] {
        assert text[j] == key[0];
        assert MatchKey(text, j, key, anyCase) == MatchKey(text, j + 1, key[1..], anyCase);
      } else {
        assert IsEscape(s[..n], key[0], anyCase);
        assert text[j] == '\\' != key[0];
        assert MatchKey(text, j, key, anyCase) == MatchKey(text, j + 6, key[1..], anyCase);
      }
      MatchKeyComplete(text, j + n, key[1..], anyCase, s[n..]);
    }
  }

  lemma {:induction false} SearchFromFinds(text: string, i: nat, key: string, anyCase: bool, colon: bool)
    requires i <= |text| && PlainKey(key)
    requires SearchFrom(text, i, key, anyCase, colon)
    ensures exists m | i <= m < |text| :: MatchesAt(text, m, key, anyCase, colon)
    decreases |text| - i
  {
    if !MatchesAt(text, i, key, anyCase, colon) {
      SearchFromFinds(text, i + 1, key, anyCase, colon);
    }
  }

  lemma {:induction false} SearchFromReaches(text: string, i: nat, m: nat, key: string, anyCase: bool, colon: bool)
    requires i <= m <= |text| && PlainKey(key)
    requires MatchesAt(text, m, key, anyCase, colon)
    ensures SearchFrom(text, i, key, anyCase, colon)
    decreases m - i
  {
    if i < m {
      SearchFromReaches(text, i + 1, m, key, anyCase, colon);
    }
  }

  /** A match of the hand-written matcher at `m` is a match of the pattern. */
  lemma MatchesAtSound(text: string, m: nat, key: string, anyCase: bool, colon: bool)
    requires m <= |text| && PlainKey(key)
    requires MatchesAt(text, m, key, anyCase, colon)
    ensures PatternMatch(text, key, anyCase, colon)
  {
    var e := MatchKey(text, m + 1, key, anyCase).value;
    assert text[m] == '"' && e < |text| && text[e] == '"';
    assert colon ==> SkipSpace(text, e + 1) < |text| && text[SkipSpace(text, e + 1)] == ':';
    MatchKeySound(text, m + 1, key, anyCase);
    var s := text[m + 1..e];
    var t := MatchedTail(text, e, colon);
    var f := e + 1 + |t|;
    QuotedJoin(text, m, e, f);
    PatternOfParts(text, m, f, key, anyCase, colon, s, t);
  }

  /** A quote at `m` and at `e` join with what lies between and after them. */
  lemma QuotedJoin(text: string, m: nat, e: nat, f: nat)
    requires m < e < f <= |text| && text[m] == '"' && text[e] == '"'
    ensures ['"'] + text[m + 1..e] + ['"'] + text[e + 1..f] == text[m..f]
  {
    assert text[m..m + 1] == ['"'] && text[e..e + 1] == ['"'];
    SliceJoin(text, m, m + 1, e);
    SliceJoin(text, m, e, e + 1);
    SliceJoin(text, m, e + 1, f);
  }

  /** A quoted spelling and a tail standing at `m` are a match of the pattern. */
  lemma PatternOfParts(text: string, m: nat, f: nat, key: string, anyCase: bool, colon: bool, s: string, t: string)
    requires m <= f <= |text| && PlainKey(key) && IsSpelling(s, key, anyCase) && IsTail(t, colon)
    requires ['"'] + s + ['"'] + t == text[m..f]
    ensures PatternMatch(text, key, anyCase, colon)
  {
    assert text[m..f] <= text[m..];
  }

  /** Adjacent slices join. */
  lemma SliceJoin(a: string, i: nat, j: nat, k: nat)
    requires i <= j <= k <= |a|
    ensures a[i..j] + a[j..k] == a[i..k]
  {
  }

  lemma Assoc(a: string, b: string, c: string)
    ensures (a + b) + c == a + (b + c)
  {
  }

  /** The text the tail of a match covers, from just past the closing quote. */
  lemma MatchedTail(text: string, e: nat, colon: bool) returns (t: string)
    requires e < |text| && (colon ==> var k := SkipSpace(text, e + 1); k < |text| && text[k] == ':')
    ensures IsTail(t, colon) && e + 1 + |t| <= |text| && t == text[e + 1..e + 1 + |t|]
  {
    if colon {
      var k := SkipSpace(text, e + 1);
      t := text[e + 1..k + 1];
      assert t[..|t| - 1] == text[e + 1..k];
    } else {
      t := [];
    }
  }

  /** A match of the pattern at `i` is found by the hand-written matcher. */
  lemma MatchesAtComplete(text: string, i: nat, key: string, anyCase: bool, colon: bool, s: string, t: string)
    requires i <= |text| && PlainKey(key)
    requires IsSpelling(s, key, anyCase) && IsTail(t, colon)
    requires ['"'] + s + ['"'] + t <= text[i..]
    ensures MatchesAt(text, i, key, anyCase, colon)
  {
    var e := i + 1 + |s|;
    QuotedSplit(text, i, s, t);
    MatchKeyComplete(text, i + 1, key, anyCase, s);
    if colon {
      TailSkips(text, e, t);
    }
    MatchesAtOfParts(text, i, key, anyCase, colon, e);
  }

  /** The parts of a quoted spelling and tail standing at `i`. */
  lemma QuotedSplit(text: string, i: nat, s: string, t: string)
    requires i <= |text| && ['"'] + s + ['"'] + t <= text[i..]
    ensures i + 2 + |s| + |t| <= |text|
    ensures text[i] == '"' && text[i + 1..i + 1 + |s|] == s && text[i + 1 + |s|] == '"'
    ensures text[i + 2 + |s|..i + 2 + |s| + |t|] == t
  {
    var q := ['"'] + s + ['"'] + t;
    var e := i + 1 + |s|;
    assert text[i..i + |q|] == q;
    assert text[i] == '"' by { assert q[0] == '"'; }
    assert text[i + 1..e] == s by { assert q[1..1 + |s|] == s; }
    assert text[e] == '"' by { assert q[1 + |s|] == '"'; }
    assert text[e + 1..e + 1 + |t|] == t by { assert q[2 + |s|..] == t; }
  }

  lemma MatchesAtOfParts(text: string, i: nat, key: string, anyCase: bool, colon: bool, e: nat)
    requires i < |text| && PlainKey(key) && e < |text|
    requires text[i] == '"' && MatchKey(text, i + 1, key, anyCase) == Some(e) && text[e] == '"'
    requires colon ==> SkipSpace(text, e + 1) < |text| && text[SkipSpace(text, e + 1)] == ':'
    ensures MatchesAt(text, i, key, anyCase, colon)
  {
  }

  /** The tail `\s*:` after the closing quote at `e` is what the matcher
   *  skips and then finds the colon after. */
  lemma TailSkips(text: string, e: nat, t: string)
    requires IsTail(t, true) && e + 1 + |t| <= |text| && text[e + 1..e + 1 + |t|] == t
    ensures SkipSpace(text, e + 1) == e + |t| && text[e + |t|] == ':'
  {
    var w := t[..|t| - 1];
    forall k | e + 1 <= k < e + 1 + |w| ensures text[k] == w[k - e - 1] {
      assert text[k] == t[k - e - 1];
    }
    assert text[e + |t|] == t[|w|];
    SkipAcross(text, e + 1, w);
  }

  /** `SkipSpace` passes over a run of whitespace that ends before a
   *  non-space character. */
  lemma {:induction false} SkipAcross(text: string, k: nat, w: string)
    requires k + |w| < |text| && AllSpace(w) && !IsSpace(text[k + |w|])
    requires forall n | k <= n < k + |w| :: text[n] == w[n - k]
    ensures SkipSpace(text, k) == k + |w|
    decreases |w|
  {
    if w != [] {
      assert text[k] == w[0];
      SkipAcross(text, k + 1, w[1..]);
    }
  }

  /** The hand-written matcher accepts exactly the texts the pattern matches. */
  lemma SuspectIsPattern(text: string, key: string, anyCase: bool, colon: bool)
    requires PlainKey(key)
    ensures Suspect(text, key, anyCase, colon) <==> PatternMatch(text, key, anyCase, colon)
  {
    if Suspect(text, key, anyCase, colon) {
      SearchFromFinds(text, 0, key, anyCase, colon);
      var m :| 0 <= m < |text| && MatchesAt(text, m, key, anyCase, colon);
      MatchesAtSound(text, m, key, anyCase, colon);
    }
    if PatternMatch(text, key, anyCase, colon) {
      var i, s, t :| 0 <= i <= |text| && IsSpelling(s, key, anyCase) && IsTail(t, colon) && ['"'] + s + ['"'] + t <= text[i..];
      MatchesAtComplete(text, i, key, anyCase, colon, s, t);
      SearchFromReaches(text, 0, i, key, anyCase, colon);
    }
  }

  /** The literal key is one of its own spellings. */
  lemma {:induction false} LiteralSpelling(key: string, anyCase: bool)
    requires PlainKey(key)
    ensures IsSpelling(key, key, anyCase)
    decreases key
  {
    if key != [] {
      LiteralSpelling(key[1..], anyCase);
      assert key[..1] == [key[0]];
    }
  }

  /** Wherever a quoted spelling of the key followed by its tail stands in a
   *  text, whatever surrounds it, the pre-screen fires. */
  lemma SuspectOfSpelling(pre: string, s: string, t: string, post: string, key: string, anyCase: bool, colon: bool)
    requires PlainKey(key) && IsSpelling(s, key, anyCase) && IsTail(t, colon)
    ensures Suspect(pre + ['"'] + s + ['"'] + t + post, key, anyCase, colon)
  {
    var text := pre + ['"'] + s + ['"'] + t + post;
    assert text[|pre|..] == ['"'] + s + ['"'] + t + post;
    MatchesAtComplete(text, |pre|, key, anyCase, colon, s, t);
    SearchFromReaches(text, 0, |pre|, key, anyCase, colon);
  }

  /** The forms of `c` the pattern accepts, listed: the character itself, and
   *  `\u00` followed by an accepted high and an accepted low hex digit. */
  lemma {:induction false} CharFormsAre(a: string, c: char, anyCase: bool, his: set<char>, los: set<char>)
    requires c as int < 128
    requires his == HexForms(c as int / 16, anyCase) && los == HexForms(c as int % 16, anyCase)
    ensures IsCharForm(a, c, anyCase) <==> a == [c] || exists h, l | h in his && l in los :: a == ['\\', 'u', '0', '0', h, l]
  {
    if IsEscape(a, c, anyCase) {
      assert a == ['\\', 'u', '0', '0', a[4], a[5]];
    }
  }

  /** The groups of the prototype-key pattern of index.js, character by
   *  character: hex letters in either case. */
  lemma ProtoCharForms(a: string)
    ensures IsCharForm(a, '_', true) <==> a in {"_", "\\u005F", "\\u005f"}
    ensures IsCharForm(a, 'p', true) <==> a in {"p", "\\u0070"}
    ensures IsCharForm(a, 'r', true) <==> a in {"r", "\\u0072"}
    ensures IsCharForm(a, 'o', true) <==> a in {"o", "\\u006F", "\\u006f"}
    ensures IsCharForm(a, 't', true) <==> a in {"t", "\\u0074"}
  {
    CharFormsAre(a, '_', true, {'5'}, {'f', 'F'});
    CharFormsAre(a, 'p', true, {'7'}, {'0'});
    CharFormsAre(a, 'r', true, {'7'}, {'2'});
    CharFormsAre(a, 'o', true, {'6'}, {'f', 'F'});
    CharFormsAre(a, 't', true, {'7'}, {'4'});
  }

  /** The groups of the constructor-key pattern of index.js that the
   *  prototype key does not share. */
  lemma ConstructorCharForms(a: string)
    ensures IsCharForm(a, 'c', true) <==> a in {"c", "\\u0063"}
    ensures IsCharForm(a, 'n', true) <==> a in {"n", "\\u006E", "\\u006e"}
    ensures IsCharForm(a, 's', true) <==> a in {"s", "\\u0073"}
    ensures IsCharForm(a, 'u', true) <==> a in {"u", "\\u0075"}
  {
    CharFormsAre(a, 'c', true, {'6'}, {'3'});
    CharFormsAre(a, 'n', true, {'6'}, {'e', 'E'});
    CharFormsAre(a, 's', true, {'7'}, {'3'});
    CharFormsAre(a, 'u', true, {'7'}, {'5'});
  }

  /** Whitespace of any kind between the closing quote and the colon still
   *  triggers the pre-screen (the four texts of the "errors on proto
   *  property" tests have this shape). */
  lemma SpacedProtoKey(pre: string, w: string, post: string)
    requires AllSpace(w)
    ensures SuspectProto(pre + "\"__proto__\"" + w + ":" + post)
  {
    LiteralSpelling(ProtoKey, true);
    var t := w + ":";
    assert t[..|t| - 1] == w;
    SuspectOfSpelling(pre, ProtoKey, t, post, ProtoKey, true, true);
    var q := ['"'] + ProtoKey;
    assert q + ['"'] == "\"__proto__\"";
    Assoc(pre, ['"'], ProtoKey);
    Assoc(pre, q, ['"']);
    Assoc(pre + (q + ['"']), w, ":");
  }

  /** A quoted `__proto__` that is a value, not a key (followed by `}`), is
   *  not a match of the index.js pattern at that position. */
  lemma ProtoValueIsNotKey(pre: string, post: string)
    ensures !MatchesAt(pre + "\"__proto__\"}" + post, |pre|, ProtoKey, true, true)
  {
    var text := pre + "\"__proto__\"}" + post;
    var e := |pre| + 10;
    LiteralSpelling(ProtoKey, true);
    assert text[|pre| + 1..e] == ProtoKey;
    MatchKeyComplete(text, |pre| + 1, ProtoKey, true, ProtoKey);
    assert text[e + 1] == '}';
  }
}
