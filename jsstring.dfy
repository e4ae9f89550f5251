/** The JavaScript string operations the routes and schemas rely on:
    `String.prototype.trim`, `toLowerCase` (on ASCII letters), substring
    search as done by `RegExp.prototype.test` on a pattern of plain
    alternatives, `indexOf`, and `replace` with a string or a one-character
    global pattern. Characters are Dafny characters, not UTF-16 code units. */
module JsString {
  import opened Common

  /** The characters `trim` removes: ECMAScript WhiteSpace and LineTerminator. */
  predicate IsWhitespace(c: char)
  {
    c == '\t' || c == '\n' || c == '\U{B}' || c == '\U{C}' || c == '\r' || c == ' '
    || c == '\U{A0}' || c == '\U{1680}' || ('\U{2000}' <= c <= '\U{200A}')
    || c == '\U{2028}' || c == '\U{2029}' || c == '\U{202F}' || c == '\U{205F}'
    || c == '\U{3000}' || c == '\U{FEFF}'
  }

  /** Neither end of `s` is whitespace. */
  predicate IsTrimmed(s: string)
  {
    s == [] || (!IsWhitespace(s[0]) && !IsWhitespace(s[|s| - 1]))
  }

  /** `s` with its leading whitespace removed. */
  function TrimStart(s: string): (r: string)
    ensures |r| <= |s| && r == s[|s| - |r|..]
    ensures r == [] || !IsWhitespace(r[0])
    ensures forall i :: 0 <= i < |s| - |r| ==> IsWhitespace(s[i])
  {
    if s != [] && IsWhitespace(s[0]) then TrimStart(s[1..]) else s
  }

  /** `s` with its trailing whitespace removed. */
  function TrimEnd(s: string): (r: string)
    ensures |r| <= |s| && r == s[..|r|]
    ensures r == [] || !IsWhitespace(r[|r| - 1])
    ensures forall i :: |r| <= i < |s| ==> IsWhitespace(s[i])
  {
    if s != [] && IsWhitespace(s[|s| - 1]) then TrimEnd(s[..|s| - 1]) else s
  }

  /** `r` is what remains of `s` once its first `i` characters and some
      suffix are cut off, and everything cut off is whitespace. */
  predicate TrimmedAt(s: string, r: string, i: int)
  {
    && 0 <= i <= |s| - |r|
    && r == s[i..i + |r|]
    && (forall k :: 0 <= k < i ==> IsWhitespace(s[k]))
    && (forall k :: i + |r| <= k < |s| ==> IsWhitespace(s[k]))
  }

  /** `String.prototype.trim`: the longest infix of `s` that starts and ends
      with a non-whitespace character (empty when `s` is all whitespace). */
  function Trim(s: string): (r: string)
    ensures IsTrimmed(r)
    ensures TrimmedAt(s, r, |s| - |TrimStart(s)|)
  {
    var t := TrimStart(s);
    TrimEndOfSuffix(s, t, TrimEnd(t));
    TrimEnd(t)
  }

  /** Cutting whitespace off the front of `s` and then off the back of what
      remains cuts only whitespace. */
  lemma TrimEndOfSuffix(s: string, t: string, r: string)
    requires |t| <= |s| && t == s[|s| - |t|..]
    requires forall k :: 0 <= k < |s| - |t| ==> IsWhitespace(s[k])
    requires |r| <= |t| && r == t[..|r|]
    requires forall k :: |r| <= k < |t| ==> IsWhitespace(t[k])
    ensures TrimmedAt(s, r, |s| - |t|)
  {
    var i := |s| - |t|;
    assert r == s[i..i + |r|];
    forall k | i + |r| <= k < |s| ensures IsWhitespace(s[k]) {
      assert s[k] == t[k - i];
    }
  }

  /** Trimming a string that is already trimmed leaves it unchanged. */
  lemma {:induction false} TrimOfTrimmed(s: string)
    requires IsTrimmed(s)
    ensures Trim(s) == s
  {
    assert TrimStart(s) == s;
    assert TrimEnd(s) == s;
  }

  /** `trim` is idempotent: the schemas' `trim` setter applied to a value the
      route has already trimmed changes nothing. */
  lemma TrimIdempotent(s: string)
    ensures Trim(Trim(s)) == Trim(s)
  {
    TrimOfTrimmed(Trim(s));
  }

  /** `toLowerCase` on one character; only ASCII letters are mapped. */
  function LowerChar(c: char): char
  {
    if 'A' <= c <= 'Z' then (c as int + 32) as char else c
  }

  function ToLower(s: string): (r: string)
    ensures |r| == |s| && forall i :: 0 <= i < |s| ==> r[i] == LowerChar(s[i])
  {
    seq(|s|, i requires 0 <= i < |s| => LowerChar(s[i]))
  }

  /** `pat` occurs in `s` starting at index `i`. */
  predicate OccursAt(s: string, pat: string, i: int)
  {
    0 <= i && i + |pat| <= |s| && s[i..i + |pat|] == pat
  }

  /** `pat` is a substring of `s`. */
  predicate Contains(s: string, pat: string)
  {
    exists i | 0 <= i <= |s| - |pat| :: OccursAt(s, pat, i)
  }

  /** The test a regular expression made only of literal alternatives
      (`a|b|c`) performs: some alternative is a substring of `s`. */
  predicate ContainsAny(s: string, pats: seq<string>)
  {
    exists k | 0 <= k < |pats| :: Contains(s, pats[k])
  }

  /** The first occurrence of `pat` in `s` at or after `from`. */
  function IndexOfFrom(s: string, pat: string, from: nat): (r: Option<nat>)
    decreases |s| - from
    ensures r.Some? ==> (from <= r.value && OccursAt(s, pat, r.value)
                         && forall j :: from <= j < r.value ==> !OccursAt(s, pat, j))
    ensures r.None? ==> forall j :: from <= j ==> !OccursAt(s, pat, j)
  {
    if from + |pat| > |s| then None
    else if s[from..from + |pat|] == pat then Some(from)
    else IndexOfFrom(s, pat, from + 1)
  }

  /** `String.prototype.indexOf`: the first occurrence of `pat` in `s`. */
  function IndexOf(s: string, pat: string): (r: Option<nat>)
    ensures r.Some? ==> (OccursAt(s, pat, r.value)
                         && forall j :: 0 <= j < r.value ==> !OccursAt(s, pat, j))
    ensures r.None? <==> !Contains(s, pat)
  {
    IndexOfFrom(s, pat, 0)
  }

  /** `s.replace(pat, rep)` with a string pattern: only the first occurrence
      is replaced; without one, `s` is returned unchanged. */
  function ReplaceFirst(s: string, pat: string, rep: string): (r: string)
    ensures !Contains(s, pat) ==> r == s
    ensures Contains(s, pat) ==>
              exists i :: (OccursAt(s, pat, i)
                           && (forall j :: 0 <= j < i ==> !OccursAt(s, pat, j))
                           && r == s[..i] + rep + s[i + |pat|..])
  {
    match IndexOf(s, pat)
    case None => s
    case Some(i) => s[..i] + rep + s[i + |pat|..]
  }

  /** `s.replace(/x/g, y)` for single characters `x` and `y`. */
  function ReplaceAllChar(s: string, from: char, to: char): (r: string)
    ensures |r| == |s|
    ensures forall i :: 0 <= i < |s| ==> r[i] == (if s[i] == from then to else s[i])
  {
    seq(|s|, i requires 0 <= i < |s| => if s[i] == from then to else s[i])
  }

  /** The last index of `c` in `s`. */
  function LastIndexOf(s: string, c: char): (r: Option<nat>)
    ensures r.Some? ==> (r.value < |s| && s[r.value] == c
                         && forall j :: r.value < j < |s| ==> s[j] != c)
    ensures r.None? ==> forall j :: 0 <= j < |s| ==> s[j] != c
  {
    if s == [] then None
    else if s[|s| - 1] == c then Some(|s| - 1)
    else LastIndexOf(s[..|s| - 1], c)
  }
}
