/**
 * The parts of JavaScript's String built-ins that the modelled code relies on:
 * `trim`, `split` on one character, `toLowerCase`, `indexOf`, `replace` with a
 * string pattern, and the character classes `\s` and `\w` of regular
 * expressions. A JavaScript string is modelled as a `seq<char>`.
 */
module JsString {
  import opened Wrappers

  /** ECMAScript WhiteSpace and LineTerminator: what `trim` strips and `\s` matches. */
  predicate IsWhitespace(c: char) {
    c == '\t' || c == '\n' || c == '\U{B}' || c == '\U{C}' || c == '\r' || c == ' '
    || c == '\U{A0}' || c == '\U{1680}' || ('\U{2000}' <= c <= '\U{200A}')
    || c == '\U{2028}' || c == '\U{2029}' || c == '\U{202F}' || c == '\U{205F}'
    || c == '\U{3000}' || c == '\U{FEFF}'
  }

  /** The characters `.` does not match in a regular expression without the `s` flag. */
  predicate IsLineTerminator(c: char) {
    c == '\n' || c == '\r' || c == '\U{2028}' || c == '\U{2029}'
  }

  /** `\w` of a regular expression without the `u` flag. */
  predicate IsWordChar(c: char) {
    ('a' <= c <= 'z') || ('A' <= c <= 'Z') || ('0' <= c <= '9') || c == '_'
  }

  predicate IsAsciiUpper(c: char) {
    'A' <= c <= 'Z'
  }

  function LowerChar(c: char): (r: char)
    ensures !IsAsciiUpper(r)
  {
    if IsAsciiUpper(c) then (c as int + 32) as char else c
  }

  /** `toLowerCase`, on the ASCII letters. */
  function Lower(s: string): (r: string)
    ensures |r| == |s|
  {
    seq(|s|, i requires 0 <= i < |s| => LowerChar(s[i]))
  }

  /** `p` occurs in `s` starting at index `i`. */
  predicate OccursAt(s: string, i: int, p: string) {
    0 <= i && i + |p| <= |s| && s[i..i + |p|] == p
  }

  /** `p` (lower-case) occurs in `s` at `i` when ASCII case is ignored: the `i` flag. */
  predicate OccursAtIgnoreCase(s: string, i: int, p: string) {
    0 <= i && i + |p| <= |s| && Lower(s[i..i + |p|]) == p
  }

  predicate ContainsIgnoreCase(s: string, p: string) {
    exists i :: 0 <= i <= |s| && OccursAtIgnoreCase(s, i, p)
  }

  /** Leading whitespace removed. */
  function TrimStart(s: string): (r: string)
    ensures |r| <= |s| && r == s[|s| - |r|..]
    ensures forall i :: 0 <= i < |s| - |r| ==> IsWhitespace(s[i])
    ensures r != [] ==> !IsWhitespace(r[0])
  {
    if s != [] && IsWhitespace(s[0]) then TrimStart(s[1..]) else s
  }

  /** Trailing whitespace removed. */
  function TrimEnd(s: string): (r: string)
    ensures |r| <= |s| && r == s[..|r|]
    ensures forall i :: |r| <= i < |s| ==> IsWhitespace(s[i])
    ensures r != [] ==> !IsWhitespace(r[|r| - 1])
  {
    if s != [] && IsWhitespace(s[|s| - 1]) then TrimEnd(s[..|s| - 1]) else s
  }

  /** `s[..a]` and `s[b..]` are all whitespace. */
  predicate WhitespaceOutside(s: string, a: int, b: int) {
    0 <= a <= b <= |s|
    && (forall i :: 0 <= i < a ==> IsWhitespace(s[i]))
    && (forall i :: b <= i < |s| ==> IsWhitespace(s[i]))
  }

  /** `String.prototype.trim`: the slice left once leading and trailing whitespace are stripped. */
  function Trim(s: string): (r: string)
    ensures |r| <= |s|
    ensures r != [] ==> !IsWhitespace(r[0]) && !IsWhitespace(r[|r| - 1])
    ensures exists a, b :: WhitespaceOutside(s, a, b) && r == s[a..b]
  {
    var t := TrimStart(s);
    StrippedTwice(s, t, TrimEnd(t));
    TrimEnd(t)
  }

  /** `TrimStart` then `TrimEnd` leaves the slice between the leading and the trailing whitespace. */
  /** A prefix `e` of a suffix `t` of `s`, each cut off whitespace, is a slice with whitespace only outside it. */
  lemma StrippedTwice(s: string, t: string, e: string)
    requires |t| <= |s| && t == s[|s| - |t|..] && forall i :: 0 <= i < |s| - |t| ==> IsWhitespace(s[i])
    requires |e| <= |t| && e == t[..|e|] && forall i :: |e| <= i < |t| ==> IsWhitespace(t[i])
    ensures WhitespaceOutside(s, |s| - |t|, |s| - |t| + |e|) && e == s[|s| - |t|..|s| - |t| + |e|]
  {
    var a := |s| - |t|;
    assert forall i :: a + |e| <= i < |s| ==> s[i] == t[i - a];
  }

  /** Trimming keeps only characters of its input. */
  lemma TrimChars(s: string)
    ensures forall d :: d in Trim(s) ==> d in s
  {
    var t := TrimStart(s);
    assert forall d :: d in t ==> d in s;
    assert forall d :: d in TrimEnd(t) ==> d in t;
  }

  /** Index of the first `c` in `s`. */
  function IndexOfChar(s: string, c: char): (r: Option<nat>)
    ensures r.None? ==> c !in s
    ensures r.Some? ==> r.value < |s| && s[r.value] == c && c !in s[..r.value]
  {
    if s == [] then None
    else if s[0] == c then Some(0)
    else match IndexOfChar(s[1..], c)
      case None => None
      case Some(i) => Some(i + 1)
  }

  /** The pieces `split(sep)` returns, joined back with `sep`. */
  function Join(parts: seq<string>, sep: char): string
    requires |parts| >= 1
  {
    if |parts| == 1 then parts[0] else parts[0] + [sep] + Join(parts[1..], sep)
  }

  /** `s.split(sep)` for a one-character separator. */
  function Split(s: string, sep: char): (parts: seq<string>)
    ensures |parts| >= 1
    ensures forall k :: 0 <= k < |parts| ==> sep !in parts[k]
    ensures Join(parts, sep) == s
    decreases |s|
  {
    match IndexOfChar(s, sep)
    case None => [s]
    case Some(i) =>
      var rest := Split(s[i + 1..], sep);
      assert s == s[..i] + [sep] + s[i + 1..];
      [s[..i]] + rest
  }

  /** The first piece of `split` is the input up to the first separator, or all of it. */
  lemma SplitFirstPiece(s: string, sep: char)
    ensures var first := Split(s, sep)[0];
      first == s[..|first|] && (|first| == |s| || s[|first|] == sep)
  {
  }

  /** `s.indexOf(p, from)`: the first occurrence of `p` at or after `from`. */
  function IndexOf(s: string, p: string, from: nat): (r: Option<nat>)
    ensures r.Some? ==> from <= r.value && OccursAt(s, r.value, p)
    ensures r.Some? ==> forall j :: from <= j < r.value ==> !OccursAt(s, j, p)
    ensures r.None? ==> forall j :: from <= j ==> !OccursAt(s, j, p)
    decreases |s| - from
  {
    if from + |p| > |s| then None
    else if OccursAt(s, from, p) then Some(from)
    else IndexOf(s, p, from + 1)
  }

  /** A pattern whose first character does not occur before `k` is first found at `k` when it occurs there. */
  lemma FirstOccurrence(s: string, p: string, k: nat)
    requires OccursAt(s, k, p) && p != [] && p[0] !in s[..k]
    ensures IndexOf(s, p, 0) == Some(k)
  {
    assert forall j :: 0 <= j < k && OccursAt(s, j, p) ==> s[..k][j] == s[j..j + |p|][0];
  }

  /**
   * GetSubstitution of ECMAScript for a pattern without capture groups:
   * `$$`, `$&`, `` $` `` and `$'` in the replacement are expanded, every other
   * character (including a `$` starting any other pair) is copied.
   */
  function Substitution(rep: string, matched: string, before: string, after: string): string
    decreases |rep|
  {
    if rep == [] then []
    else if |rep| >= 2 && rep[0] == '$' && rep[1] == '$' then "$" + Substitution(rep[2..], matched, before, after)
    else if |rep| >= 2 && rep[0] == '$' && rep[1] == '&' then matched + Substitution(rep[2..], matched, before, after)
    else if |rep| >= 2 && rep[0] == '$' && rep[1] == '`' then before + Substitution(rep[2..], matched, before, after)
    else if |rep| >= 2 && rep[0] == '$' && rep[1] == '\'' then after + Substitution(rep[2..], matched, before, after)
    else [rep[0]] + Substitution(rep[1..], matched, before, after)
  }

  /** `s.replace(p, rep)` with a string pattern: only the first occurrence is replaced. */
  function ReplaceFirst(s: string, p: string, rep: string): string {
    match IndexOf(s, p, 0)
    case None => s
    case Some(i) => s[..i] + Substitution(rep, p, s[..i], s[i + |p|..]) + s[i + |p|..]
  }

  /** `s.replace(p, () => rep)`: the first occurrence of `p` replaced by `rep` as it stands, with no pattern expanded. */
  function ReplaceFirstLiteral(s: string, p: string, rep: string): string {
    match IndexOf(s, p, 0)
    case None => s
    case Some(i) => s[..i] + rep + s[i + |p|..]
  }

  /** `s.replace(/c/g, rep)` for one character `c` and a replacement without `$`. */
  function ReplaceChar(s: string, c: char, rep: string): (r: string)
    ensures c !in rep ==> c !in r
    ensures forall d :: d in r ==> d in s || d in rep
  {
    if s == [] then []
    else (if s[0] == c then rep else [s[0]]) + ReplaceChar(s[1..], c, rep)
  }

  lemma {:induction false} LiteralSubstitution(rep: string, matched: string, before: string, after: string)
    requires '$' !in rep
    ensures Substitution(rep, matched, before, after) == rep
  {
    if rep != [] {
      LiteralSubstitution(rep[1..], matched, before, after);
    }
  }
}
