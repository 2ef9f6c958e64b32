/** The attempt key made queryable: the stamped marker, its LIKE pattern, and what a `like` probe
    for one attempt's marker can and cannot match. */
module Marker {
  import opened Text

  // ---------------------------------------------------------------- LIKE

  /** `text LIKE pattern` of the PostgreSQL manual, section 9.7.1: `%` is any run, `_` any one
      character, a backslash makes the next character literal. A pattern that ends in its escape
      character is an error there; it matches nothing here. */
  predicate Like(text: string, pattern: string)
    decreases |text| + |pattern|
  {
    if pattern == [] then
      text == []
    else if pattern[0] == '%' then
      Like(text, pattern[1..]) || (text != [] && Like(text[1..], pattern))
    else if pattern[0] == '_' then
      text != [] && Like(text[1..], pattern[1..])
    else if pattern[0] == '\\' then
      |pattern| > 1 && text != [] && text[0] == pattern[1] && Like(text[1..], pattern[2..])
    else
      text != [] && text[0] == pattern[0] && Like(text[1..], pattern[1..])
  }

  /** Odoo's `like` operator: the value is looked for anywhere in the column. */
  predicate LikeOperator(text: string, value: string) {
    Like(text, "%" + value + "%")
  }

  function Replace(s: string, c: char, repl: string): string {
    if s == [] then [] else (if s[0] == c then repl else [s[0]]) + Replace(s[1..], c, repl)
  }

  /** The three successive `str.replace` calls. */
  function LikeEscape(value: string): string {
    Replace(Replace(Replace(value, '\\', "\\\\"), '%', "\\%"), '_', "\\_")
  }

  predicate Wild(c: char) {
    c == '\\' || c == '%' || c == '_'
  }

  /** One pass: a backslash before each special character. */
  function EscapeEach(value: string): string {
    if value == [] then [] else (if Wild(value[0]) then ['\\', value[0]] else [value[0]]) + EscapeEach(value[1..])
  }

  lemma {:induction false} ReplaceConcat(a: string, b: string, c: char, repl: string)
    ensures Replace(a + b, c, repl) == Replace(a, c, repl) + Replace(b, c, repl)
  {
    if a == [] {
      assert a + b == b;
    } else {
      assert (a + b)[1..] == a[1..] + b;
      ReplaceConcat(a[1..], b, c, repl);
    }
  }

  /** The order of the three replacements is right: no backslash they add is escaped again. */
  lemma {:induction false} SequentialEscapeIsOnePass(value: string)
    ensures LikeEscape(value) == EscapeEach(value)
  {
    if value != [] {
      var head, rest := [value[0]], value[1..];
      assert value == head + rest;
      ReplaceConcat(head, rest, '\\', "\\\\");
      var h1, r1 := Replace(head, '\\', "\\\\"), Replace(rest, '\\', "\\\\");
      ReplaceConcat(h1, r1, '%', "\\%");
      var h2, r2 := Replace(h1, '%', "\\%"), Replace(r1, '%', "\\%");
      ReplaceConcat(h2, r2, '_', "\\_");
      EscapeOne(value[0]);
      SequentialEscapeIsOnePass(rest);
    }
  }

  lemma EscapeOne(c: char)
    ensures LikeEscape([c]) == if Wild(c) then ['\\', c] else [c]
  {
    ReplaceOne(c, '\\', "\\\\");
    ReplaceOne(c, '%', "\\%");
    ReplaceOne(c, '_', "\\_");
    if c == '\\' {
      ReplaceTwo('\\', '\\', '%', "\\%");
      ReplaceTwo('\\', '\\', '_', "\\_");
    } else if c == '%' {
      ReplaceTwo('\\', '%', '_', "\\_");
    }
  }

  lemma ReplaceOne(a: char, c: char, repl: string)
    ensures Replace([a], c, repl) == if a == c then repl else [a]
  {
    assert [a][1..] == [] && repl + [] == repl;
  }

  lemma ReplaceTwo(a: char, b: char, c: char, repl: string)
    requires a != c && b != c
    ensures Replace([a, b], c, repl) == [a, b]
  {
    assert [a, b][1..] == [b];
    ReplaceOne(b, c, repl);
  }

  lemma {:induction false} PercentMatchesAll(text: string)
    ensures Like(text, "%")
  {
    if text != [] {
      PercentMatchesAll(text[1..]);
    } else {
      assert Like([], "%"[1..]);
    }
  }

  /** An escaped value followed by `%` matches exactly the texts that start with the value. */
  lemma {:induction false} EscapedPrefix(text: string, value: string)
    ensures Like(text, EscapeEach(value) + "%") <==> HasPrefix(text, value)
  {
    var pattern := EscapeEach(value) + "%";
    if value == [] {
      assert pattern == "%";
      PercentMatchesAll(text);
    } else {
      var tail := EscapeEach(value[1..]) + "%";
      if Wild(value[0]) {
        assert pattern == ['\\', value[0]] + tail;
        assert pattern[2..] == tail;
      } else {
        assert pattern == [value[0]] + tail;
        assert pattern[1..] == tail;
      }
      if text != [] {
        EscapedPrefix(text[1..], value[1..]);
        assert HasPrefix(text, value) <==> text[0] == value[0] && HasPrefix(text[1..], value[1..]) by {
          if |value| <= |text| {
            assert text[..|value|] == [text[0]] + text[1..][..|value| - 1];
            assert value == [value[0]] + value[1..];
          }
        }
      }
    }
  }

  /** A `like` probe for an escaped value is literal containment, whatever characters the value and
      the column hold. */
  lemma {:induction false} EscapedLikeIsContainment(text: string, value: string)
    ensures LikeOperator(text, LikeEscape(value)) <==> Contains(text, value)
  {
    SequentialEscapeIsOnePass(value);
    var pattern := "%" + LikeEscape(value) + "%";
    var rest := EscapeEach(value) + "%";
    assert pattern == ['%'] + rest;
    assert pattern[1..] == rest;
    EscapedPrefix(text, value);
    if text != [] {
      EscapedLikeIsContainment(text[1..], value);
    }
  }

  /** Without the escape the probe of one attempt matches another attempt's marker. */
  lemma UnescapedLikeCollides()
    ensures LikeOperator("[WSL-aXb]", "[WSL-a_b]") && !Contains("[WSL-aXb]", "[WSL-a_b]")
    ensures !LikeOperator("[WSL-aXb]", LikeEscape("[WSL-a_b]"))
  {
    var text, value := "[WSL-aXb]", "[WSL-a_b]";
    LikeItself("[WSL-aXb]", 0);
    assert !Contains(text, value) by {
      assert text[6] != value[6];
      if Contains(text, value) {
        NotShorter(text, value);
      }
    }
    EscapedLikeIsContainment(text, value);
  }

  lemma NotShorter(text: string, value: string)
    requires Contains(text, value) && |text| == |value|
    ensures text == value
  {
    var i := ContainsWitness(text, value);
  }

  lemma {:induction false} LikeItself(text: string, i: nat)
    requires text == "[WSL-aXb]" && i <= 9
    ensures Like(text[i..], ("[WSL-a_b]" + "%")[i..])
    ensures i == 0 ==> LikeOperator(text, "[WSL-a_b]")
    decreases 9 - i
  {
    var pattern := "[WSL-a_b]" + "%";
    if i == 9 {
      assert text[9..] == [] && pattern[9..] == "%";
      PercentMatchesAll([]);
    } else {
      LikeItself(text, i + 1);
      assert text[i..][1..] == text[i + 1..] && pattern[i..][1..] == pattern[i + 1..];
    }
    if i == 0 {
      assert text[0..] == text && pattern[0..] == pattern;
      assert ("%" + "[WSL-a_b]" + "%")[1..] == pattern;
    }
  }

  // ---------------------------------------------------------------- the marker

  /** Python's `str.isspace` set, which `str.strip` removes. */
  predicate IsSpace(c: char) {
    c == ' ' || '\U{0009}' <= c <= '\U{000D}' || '\U{001C}' <= c <= '\U{001F}' || c == '\U{0085}'
    || c == '\U{00A0}' || c == '\U{1680}' || '\U{2000}' <= c <= '\U{200A}' || c == '\U{2028}'
    || c == '\U{2029}' || c == '\U{202F}' || c == '\U{205F}' || c == '\U{3000}'
  }

  function StripLeft(s: string): string {
    if s != [] && IsSpace(s[0]) then StripLeft(s[1..]) else s
  }

  function StripRight(s: string): string {
    if s != [] && IsSpace(s[|s| - 1]) then StripRight(s[..|s| - 1]) else s
  }

  function Strip(s: string): string {
    StripRight(StripLeft(s))
  }

  /** The characters a key may carry into the marker. */
  predicate KeySafe(c: char) {
    'A' <= c <= 'Z' || 'a' <= c <= 'z' || '0' <= c <= '9' || c == ':' || c == '.' || c == '_' || c == '-'
  }

  function Sanitize(s: string): (t: string)
    ensures |t| == |s|
    ensures forall i | 0 <= i < |s| :: t[i] == if KeySafe(s[i]) then s[i] else '-'
  {
    seq(|s|, i requires 0 <= i < |s| => if KeySafe(s[i]) then s[i] else '-')
  }

  const MAX_KEY := 64
  const OPEN := "[WSL-"

  /** The text between the marker's brackets. `digest` is the hex digest of the whole key. */
  function KeyBody(key: string, digest: string -> string): string {
    var safe := Sanitize(Strip(key));
    if |safe| > MAX_KEY then
      var hex := digest(key);
      "h" + hex[..if |hex| < 32 then |hex| else 32]
    else
      safe
  }

  function IdemMarker(key: string, digest: string -> string): string {
    OPEN + KeyBody(key, digest) + "]"
  }

  /** The stamped field: a caller's own reference is kept in front of the marker. */
  function Stamp(prior: string, marker: string): string {
    if prior == "" then marker else prior + " " + marker
  }

  /** `t` is `s` without the blanks around it. */
  predicate StrippedAt(s: string, t: string, i: nat, j: nat) {
    && i <= j <= |s| && t == s[i..j]
    && (forall k | 0 <= k < i :: IsSpace(s[k])) && (forall k | j <= k < |s| :: IsSpace(s[k]))
    && (i < j ==> !IsSpace(s[i]) && !IsSpace(s[j - 1]))
  }

  lemma {:induction false} StripLeftMeans(s: string) returns (i: nat)
    ensures i <= |s| && StripLeft(s) == s[i..] && (forall k | 0 <= k < i :: IsSpace(s[k]))
    ensures i < |s| ==> !IsSpace(s[i])
  {
    i := 0;
    if s != [] && IsSpace(s[0]) {
      var j := StripLeftMeans(s[1..]);
      i := j + 1;
      assert s[1..][j..] == s[i..];
      forall k | 0 <= k < i ensures IsSpace(s[k]) {
        assert k > 0 ==> s[k] == s[1..][k - 1];
      }
    }
  }

  lemma {:induction false} StripRightMeans(s: string) returns (j: nat)
    ensures j <= |s| && StripRight(s) == s[..j] && (forall k | j <= k < |s| :: IsSpace(s[k]))
    ensures j > 0 ==> !IsSpace(s[j - 1])
  {
    j := |s|;
    if s != [] && IsSpace(s[|s| - 1]) {
      j := StripRightMeans(s[..|s| - 1]);
    }
  }

  lemma StripMeans(s: string)
    ensures exists i, j :: StrippedAt(s, Strip(s), i, j)
  {
    var i := StripLeftMeans(s);
    var j := StripRightMeans(s[i..]);
    assert Strip(s) == s[i..][..j] == s[i..i + j];
    assert StrippedAt(s, Strip(s), i, i + j);
  }

  /** The marker's text: the key without the blanks around it and with a dash for every character that is
      not a letter, a digit or one of `:._-`; of a key longer than 64 so, `h` and the first 32 characters of
      its digest. */
  lemma MarkerIs(key: string, digest: string -> string)
    ensures exists i, j :: StrippedAt(key, Strip(key), i, j)
    ensures |Strip(key)| <= 64 ==>
              exists body: string :: |body| == |Strip(key)| && IdemMarker(key, digest) == "[WSL-" + body + "]"
                             && forall k | 0 <= k < |body| ::
                               body[k] == if KeySafe(Strip(key)[k]) then Strip(key)[k] else '-'
    ensures |Strip(key)| > 64 && |digest(key)| >= 32 ==>
              IdemMarker(key, digest) == "[WSL-h" + digest(key)[..32] + "]"
  {
    StripMeans(key);
    if |Strip(key)| <= 64 {
      assert IdemMarker(key, digest) == "[WSL-" + Sanitize(Strip(key)) + "]";
    } else if |digest(key)| >= 32 {
      assert "[WSL-" + ("h" + digest(key)[..32]) == "[WSL-h" + digest(key)[..32];
    }
  }

  predicate BracketFree(s: string) {
    '[' !in s && ']' !in s
  }

  /** Keys whose body is their own text: safe alphabet, at most 64 characters. */
  predicate PlainKey(key: string) {
    |key| <= MAX_KEY && forall c | c in key :: KeySafe(c)
  }

  lemma {:induction false} StripLeftPlain(s: string)
    requires forall c | c in s :: KeySafe(c)
    ensures StripLeft(s) == s && StripRight(s) == s
  {
    if s != [] {
      assert s[0] in s && s[|s| - 1] in s;
    }
  }

  lemma PlainBody(key: string, digest: string -> string)
    requires PlainKey(key)
    ensures KeyBody(key, digest) == key
  {
    StripLeftPlain(key);
    assert Sanitize(key) == key by {
      forall i | 0 <= i < |key| ensures Sanitize(key)[i] == key[i] {
        assert key[i] in key;
      }
    }
  }

  /** The body never carries a bracket, hashed or not, when the digest is hexadecimal. */
  lemma BodyBracketFree(key: string, digest: string -> string)
    requires BracketFree(digest(key))
    ensures BracketFree(KeyBody(key, digest))
  {
    var safe := Sanitize(Strip(key));
    if |safe| > MAX_KEY {
      var hex := digest(key);
      var cut := hex[..if |hex| < 32 then |hex| else 32];
      assert forall c | c in cut :: c in hex;
      assert forall c | c in "h" + cut :: c == 'h' || c in cut;
    } else {
      forall i | 0 <= i < |safe| ensures safe[i] != '[' && safe[i] != ']' {
      }
    }
  }

  lemma MarkerChars(body: string, k: nat)
    requires BracketFree(body) && k < |OPEN + body + "]"|
    ensures (OPEN + body + "]")[k] == '[' <==> k == 0
    ensures (OPEN + body + "]")[k] == ']' <==> k == |OPEN + body|
  {
    assert 5 <= k < 5 + |body| ==> (OPEN + body + "]")[k] in body;
  }

  function Offset(prior: string): nat {
    if prior == "" then 0 else |prior| + 1
  }

  lemma StampSplit(prior: string, marker: string)
    requires '[' !in prior
    ensures |Stamp(prior, marker)| == Offset(prior) + |marker|
    ensures Stamp(prior, marker)[Offset(prior)..] == marker
    ensures forall k | 0 <= k < Offset(prior) :: Stamp(prior, marker)[k] != '['
  {
    if prior != "" {
      assert Stamp(prior, marker) == (prior + " ") + marker;
      forall k | 0 <= k < Offset(prior) ensures Stamp(prior, marker)[k] != '[' {
        assert k < |prior| ==> prior[k] in prior;
      }
    }
  }

  /** Where a marker can start: at the one opening bracket of the stamped text. */
  lemma MarkerStart(prior: string, b1: string, b2: string, i: nat)
    requires '[' !in prior && BracketFree(b1) && BracketFree(b2)
    requires var s := Stamp(prior, OPEN + b2 + "]"); i <= |s| && HasPrefix(s[i..], OPEN + b1 + "]")
    ensures b1 == b2
  {
    var m1, m2 := OPEN + b1 + "]", OPEN + b2 + "]";
    var s, off := Stamp(prior, m2), Offset(prior);
    StampSplit(prior, m2);
    assert s[i..][..|m1|][0] == '[' && s[i] == '[';
    MarkerChars(b2, if i < off then 0 else i - off);
    assert i >= off ==> s[i] == s[off..][i - off];
    assert i == off;
    MarkerPrefix(b1, b2);
  }

  lemma MarkerPrefix(b1: string, b2: string)
    requires BracketFree(b1) && BracketFree(b2) && HasPrefix(OPEN + b2 + "]", OPEN + b1 + "]")
    ensures b1 == b2
  {
    var m1, m2 := OPEN + b1 + "]", OPEN + b2 + "]";
    assert m2[..|m1|][|m1| - 1] == ']';
    MarkerChars(b2, |m1| - 1);
    assert m1 == m2;
    assert m1[5..5 + |b1|] == b1 && m2[5..5 + |b2|] == b2;
  }

  /** Marker separation: in a field stamped for key `k2` over a prior text without `[`, the marker
      of `k1` occurs exactly when the two keys have the same body. */
  lemma MarkerSeparation(prior: string, k1: string, k2: string, digest: string -> string)
    requires '[' !in prior
    requires BracketFree(digest(k1)) && BracketFree(digest(k2))
    ensures Contains(Stamp(prior, IdemMarker(k2, digest)), IdemMarker(k1, digest))
            <==> KeyBody(k1, digest) == KeyBody(k2, digest)
  {
    BodyBracketFree(k1, digest);
    BodyBracketFree(k2, digest);
    var m1, m2 := IdemMarker(k1, digest), IdemMarker(k2, digest);
    var s := Stamp(prior, m2);
    if Contains(s, m1) {
      var i := ContainsWitness(s, m1);
      MarkerStart(prior, KeyBody(k1, digest), KeyBody(k2, digest), i);
    }
    if m1 == m2 {
      StampCarries(prior, m2);
    }
  }

  lemma StampCarries(prior: string, marker: string)
    ensures Contains(Stamp(prior, marker), marker)
  {
    assert Stamp(prior, marker)[Offset(prior)..] == marker;
    ContainsAt(Stamp(prior, marker), marker, Offset(prior));
  }

  /** For keys of the safe alphabet within the length limit the marker is the key's own identity. */
  lemma PlainMarkerSeparation(prior: string, k1: string, k2: string, digest: string -> string)
    requires '[' !in prior && PlainKey(k1) && PlainKey(k2)
    ensures LikeOperator(Stamp(prior, IdemMarker(k2, digest)), LikeEscape(IdemMarker(k1, digest))) <==> k1 == k2
  {
    PlainBody(k1, digest);
    PlainBody(k2, digest);
    var m1, m2 := IdemMarker(k1, digest), IdemMarker(k2, digest);
    if Contains(Stamp(prior, m2), m1) {
      var i := ContainsWitness(Stamp(prior, m2), m1);
      MarkerStart(prior, k1, k2, i);
    }
    StampCarries(prior, m2);
    EscapedLikeIsContainment(Stamp(prior, IdemMarker(k2, digest)), IdemMarker(k1, digest));
  }

  predicate Tight(s: string) {
    BracketFree(s) && ' ' !in s
  }

  lemma BodyTight(key: string, digest: string -> string)
    requires Tight(digest(key))
    ensures Tight(KeyBody(key, digest))
  {
    BodyBracketFree(key, digest);
    var safe := Sanitize(Strip(key));
    if |safe| > MAX_KEY {
      var hex := digest(key);
      var cut := hex[..if |hex| < 32 then |hex| else 32];
      assert forall c | c in cut :: c in hex;
      assert forall c | c in "h" + cut :: c == 'h' || c in cut;
    } else {
      forall i | 0 <= i < |safe| ensures safe[i] != ' ' {
      }
    }
  }

  /** For any prior text at all: the probe for `k1` hits a field stamped for `k2` exactly when the two
      keys have one body, or the caller's own text already quoted the marker of `k1`. */
  lemma MarkerFoundExactlyWhen(prior: string, k1: string, k2: string, digest: string -> string)
    requires Tight(digest(k1)) && Tight(digest(k2))
    ensures LikeOperator(Stamp(prior, IdemMarker(k2, digest)), LikeEscape(IdemMarker(k1, digest)))
            <==> KeyBody(k1, digest) == KeyBody(k2, digest) || Contains(prior, IdemMarker(k1, digest))
  {
    var m1, m2 := IdemMarker(k1, digest), IdemMarker(k2, digest);
    var s := Stamp(prior, m2);
    EscapedLikeIsContainment(s, m1);
    BodyTight(k1, digest);
    BodyTight(k2, digest);
    if Contains(s, m1) {
      var i := ContainsWitness(s, m1);
      MarkerPlace(prior, KeyBody(k1, digest), KeyBody(k2, digest), i);
    }
    if m1 == m2 {
      StampCarries(prior, m2);
    }
    if Contains(prior, m1) {
      var i := ContainsWitness(prior, m1);
      assert s[i..][..|m1|] == prior[i..][..|m1|];
      ContainsAt(s, m1, i);
    }
  }

  /** A marker in a stamped text lies in the prior text, or is the stamp: it cannot straddle the blank. */
  lemma MarkerPlace(prior: string, b1: string, b2: string, i: nat)
    requires Tight(b1) && Tight(b2)
    requires var s := Stamp(prior, OPEN + b2 + "]"); i <= |s| && HasPrefix(s[i..], OPEN + b1 + "]")
    ensures b1 == b2 || Contains(prior, OPEN + b1 + "]")
  {
    var m1, m2 := OPEN + b1 + "]", OPEN + b2 + "]";
    var s, off := Stamp(prior, m2), Offset(prior);
    assert s == (if prior == "" then "" else prior + " ") + m2;
    assert s[off..] == m2;
    if i >= off {
      assert s[i..] == m2[i - off..];
      MarkerStart("", b1, b2, i - off);
    } else {
      BeforeTheBlank(prior, m2, b1, i);
    }
  }

  lemma BeforeTheBlank(prior: string, rest: string, body: string, i: nat)
    requires Tight(body) && i <= |prior| && HasPrefix((prior + " " + rest)[i..], OPEN + body + "]")
    ensures Contains(prior, OPEN + body + "]")
  {
    var m, s := OPEN + body + "]", prior + " " + rest;
    assert forall k | 0 <= k < |m| :: s[i + k] == s[i..][..|m|][k];
    if i + |m| <= |prior| {
      assert prior[i..][..|m|] == m;
      ContainsAt(prior, m, i);
    } else {
      assert s[|prior|] == ' ';
      NoBlank(body, |prior| - i);
    }
  }

  lemma NoBlank(body: string, k: nat)
    requires Tight(body) && k < |OPEN + body + "]"|
    ensures (OPEN + body + "]")[k] != ' '
  {
    assert 5 <= k < 5 + |body| ==> (OPEN + body + "]")[k] in body;
  }

  /** Outside that alphabet two different keys can share one marker. */
  lemma UnsafeKeysCollide(digest: string -> string)
    ensures "run 1" != "run/1" && IdemMarker("run 1", digest) == IdemMarker("run/1", digest)
  {
    assert Strip("run 1") == "run 1" && Strip("run/1") == "run/1";
    assert Sanitize("run 1") == "run-1" == Sanitize("run/1");
  }
}
