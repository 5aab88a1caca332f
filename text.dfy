/** The JavaScript string operations the search boxes and forms rely on:
    `toLowerCase`, `includes` and `trim`. Strings are sequences of Unicode
    scalar values. */
module Text {

  /** The code points `String.prototype.trim` removes: ECMAScript's
      WhiteSpace and LineTerminator characters. */
  predicate IsWhitespace(c: char) {
    || c == ' ' || c == '\t' || c == '\n' || c == '\r'
    || c == '\U{B}' || c == '\U{C}' || c == '\U{A0}' || c == '\U{1680}'
    || ('\U{2000}' <= c <= '\U{200A}')
    || c == '\U{2028}' || c == '\U{2029}' || c == '\U{202F}' || c == '\U{205F}'
    || c == '\U{3000}' || c == '\U{FEFF}'
  }

  /** The capitals `toLowerCase` lowers here: A-Z and the accented Latin-1
      capitals U+00C0 to U+00DE except the multiplication sign, which
      cover Portuguese text. */
  predicate IsCapital(c: char) {
    'A' <= c <= 'Z' || ('\U{C0}' <= c <= '\U{DE}' && c != '\U{D7}')
  }

  /** `toLowerCase` on one character: each of those capitals becomes its
      small letter, 32 code points on. */
  function LowerChar(c: char): char {
    if IsCapital(c) then (c as int + 32) as char else c
  }

  /** `String.prototype.toLowerCase`, character by character: no capital
      is left, every capital becomes its small letter, and every other
      character stays as it was. */
  function Lower(s: string): (r: string)
    ensures |r| == |s|
    ensures forall i | 0 <= i < |r| :: !IsCapital(r[i])
    ensures forall i | 0 <= i < |s| && !IsCapital(s[i]) :: r[i] == s[i]
    ensures forall i | 0 <= i < |s| && IsCapital(s[i]) :: r[i] as int == s[i] as int + 32
  {
    seq(|s|, i requires 0 <= i < |s| => LowerChar(s[i]))
  }

  /** Lower-casing twice is lower-casing once. */
  lemma LowerIdempotent(s: string)
    ensures Lower(Lower(s)) == Lower(s)
  {
  }

  /** `s.includes(q)`: `q` is a prefix of `s` or of one of its suffixes.
      This holds exactly when `q` occurs in `s` at some position. */
  predicate Contains(s: string, q: string)
    ensures Contains(s, q) <==> exists i :: OccursAt(s, q, i)
    decreases |s|
  {
    if q <= s then
      assert OccursAt(s, q, 0);
      true
    else if s == [] then false
    else
      ContainsStep(s, q);
      Contains(s[1..], q)
  }

  /** `q` occurs in `s` as the contiguous run starting at position `i`. */
  predicate OccursAt(s: string, q: string, i: int) {
    0 <= i <= |s| - |q| && s[i..i + |q|] == q
  }

  /** When `q` is not a prefix of `s`, it occurs in `s` exactly when it
      occurs in the rest of `s`. */
  lemma ContainsStep(s: string, q: string)
    requires s != [] && !(q <= s)
    ensures (exists i :: OccursAt(s, q, i)) <==> exists i :: OccursAt(s[1..], q, i)
  {
    forall i | OccursAt(s, q, i)
      ensures OccursAt(s[1..], q, i - 1)
    {
      assert i != 0;
      assert s[1..][i - 1..i - 1 + |q|] == s[i..i + |q|];
    }
    forall i | OccursAt(s[1..], q, i)
      ensures OccursAt(s, q, i + 1)
    {
      assert s[i + 1..i + 1 + |q|] == s[1..][i..i + |q|];
    }
  }

  /** Every string contains the empty string, so an empty search matches. */
  lemma ContainsEmpty(s: string)
    ensures Contains(s, "")
  {
  }

  /** `trimStart`: drops the leading whitespace and nothing else. */
  function TrimStart(s: string): (r: string)
    ensures LeadingStripped(s, r)
    decreases |s|
  {
    if s != [] && IsWhitespace(s[0]) then
      var r := TrimStart(s[1..]);
      LeadingStep(s, r);
      r
    else s
  }

  /** Stripping a leading whitespace character and then the rest of the
      leading whitespace strips all of it. */
  lemma LeadingStep(s: string, r: string)
    requires s != [] && IsWhitespace(s[0]) && LeadingStripped(s[1..], r)
    ensures LeadingStripped(s, r)
  {
    assert s[1..][|s| - 1 - |r|..] == s[|s| - |r|..];
    forall i | 1 <= i < |s| - |r|
      ensures IsWhitespace(s[i])
    {
      assert s[i] == s[1..][i - 1];
    }
  }

  /** `trimEnd`: drops the trailing whitespace and nothing else. */
  function TrimEnd(s: string): (r: string)
    ensures TrailingStripped(s, r)
    decreases |s|
  {
    if s != [] && IsWhitespace(s[|s| - 1]) then
      var r := TrimEnd(s[..|s| - 1]);
      TrailingStep(s, r);
      r
    else s
  }

  /** Stripping a trailing whitespace character and then the rest of the
      trailing whitespace strips all of it. */
  lemma TrailingStep(s: string, r: string)
    requires s != [] && IsWhitespace(s[|s| - 1]) && TrailingStripped(s[..|s| - 1], r)
    ensures TrailingStripped(s, r)
  {
    assert s[..|s| - 1][..|r|] == s[..|r|];
    forall i | |r| <= i < |s| - 1
      ensures IsWhitespace(s[i])
    {
      assert s[i] == s[..|s| - 1][i];
    }
  }

  /** `r` is the run of `s` starting at `k`, and everything of `s` outside
      that run is whitespace. */
  predicate TrimmedAt(s: string, r: string, k: int) {
    && 0 <= k <= |s| - |r|
    && r == s[k..k + |r|]
    && (forall i | 0 <= i < k :: IsWhitespace(s[i]))
    && (forall i | k + |r| <= i < |s| :: IsWhitespace(s[i]))
  }

  /** `String.prototype.trim`: the run of `s` left after removing whitespace
      at both ends. It is empty exactly when `s` is blank. */
  function Trim(s: string): (r: string)
    ensures r == [] || (!IsWhitespace(r[0]) && !IsWhitespace(r[|r| - 1]))
    ensures exists k :: TrimmedAt(s, r, k)
    ensures r == [] <==> forall i | 0 <= i < |s| :: IsWhitespace(s[i])
  {
    var front := TrimStart(s);
    var r := TrimEnd(front);
    TrimBothEnds(s, front, r);
    r
  }

  /** `front` is `s` without its leading whitespace. */
  predicate LeadingStripped(s: string, front: string) {
    && |front| <= |s| && front == s[|s| - |front|..]
    && (front == [] || !IsWhitespace(front[0]))
    && forall i | 0 <= i < |s| - |front| :: IsWhitespace(s[i])
  }

  /** `r` is `front` without its trailing whitespace. */
  predicate TrailingStripped(front: string, r: string) {
    && |r| <= |front| && r == front[..|r|]
    && (r == [] || !IsWhitespace(r[|r| - 1]))
    && forall i | |r| <= i < |front| :: IsWhitespace(front[i])
  }

  /** Stripping the start and then the end leaves the run after the leading
      whitespace and before the trailing whitespace. */
  lemma TrimBothEnds(s: string, front: string, r: string)
    requires LeadingStripped(s, front) && TrailingStripped(front, r)
    ensures r == [] || (!IsWhitespace(r[0]) && !IsWhitespace(r[|r| - 1]))
    ensures exists k :: TrimmedAt(s, r, k)
    ensures r == [] <==> forall i | 0 <= i < |s| :: IsWhitespace(s[i])
  {
    var k := |s| - |front|;
    assert r == s[k..k + |r|];
    forall i | k + |r| <= i < |s|
      ensures IsWhitespace(s[i])
    {
      assert s[i] == front[i - k];
    }
    if r != [] {
      assert r[0] == front[0] == s[k];
    }
    assert TrimmedAt(s, r, k);
  }

  /** Trimming a trimmed string changes nothing. */
  lemma TrimIdempotent(s: string)
    ensures Trim(Trim(s)) == Trim(s)
  {
    var r := Trim(s);
    assert TrimStart(r) == r;
    assert TrimEnd(r) == r;
  }
}
