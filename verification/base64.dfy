/**
 * `btoa`: Base64 encoding (section 4 of RFC 4648, with `=` padding) of a
 * string whose characters are all at most U+00FF, each taken as one byte.
 * Any other character makes `btoa` throw.
 */
module Base64 {
  import opened Wrappers

  predicate IsByte(b: int) {
    0 <= b < 256
  }

  /** The character of a 6-bit value in the Base64 alphabet. */
  function CharOf(v: int): (c: char)
    requires 0 <= v < 64
  {
    if v < 26 then ('A' as int + v) as char
    else if v < 52 then ('a' as int + v - 26) as char
    else if v < 62 then ('0' as int + v - 52) as char
    else if v == 62 then '+'
    else '/'
  }

  predicate IsAlphabetChar(c: char) {
    ('A' <= c <= 'Z') || ('a' <= c <= 'z') || ('0' <= c <= '9') || c == '+' || c == '/'
  }

  /** The 6-bit value of a character of the alphabet. */
  function ValueOf(c: char): (v: int)
    requires IsAlphabetChar(c)
    ensures 0 <= v < 64
  {
    if 'A' <= c <= 'Z' then c as int - 'A' as int
    else if 'a' <= c <= 'z' then c as int - 'a' as int + 26
    else if '0' <= c <= '9' then c as int - '0' as int + 52
    else if c == '+' then 62
    else 63
  }

  lemma ValueOfCharOf(v: int)
    requires 0 <= v < 64
    ensures IsAlphabetChar(CharOf(v)) && ValueOf(CharOf(v)) == v
  {
  }

  /** The four 6-bit values of a group of three bytes (missing bytes given as 0). */
  function Sextets(b0: int, b1: int, b2: int): (r: (int, int, int, int))
    requires IsByte(b0) && IsByte(b1) && IsByte(b2)
    ensures 0 <= r.0 < 64 && 0 <= r.1 < 64 && 0 <= r.2 < 64 && 0 <= r.3 < 64
  {
    assert 0 <= b0 % 4 < 4 && 0 <= b1 / 16 < 16;
    assert 0 <= b1 % 16 < 16 && 0 <= b2 / 64 < 4;
    (b0 / 4, (b0 % 4) * 16 + b1 / 16, (b1 % 16) * 4 + b2 / 64, b2 % 64)
  }

  /** The four characters of a group holding `n` (1 to 3) bytes, padded with `=`. */
  function EncodeGroup(b0: int, b1: int, b2: int, n: int): (r: string)
    requires IsByte(b0) && IsByte(b1) && IsByte(b2) && 1 <= n <= 3
    ensures |r| == 4
  {
    var v := Sextets(b0, b1, b2);
    [CharOf(v.0), CharOf(v.1), if n >= 2 then CharOf(v.2) else '=', if n == 3 then CharOf(v.3) else '=']
  }

  /** The Base64 text of a byte sequence: four characters per three bytes, the last group padded with `=`. */
  function Encode(bytes: seq<int>): (r: string)
    requires forall i :: 0 <= i < |bytes| ==> IsByte(bytes[i])
    ensures |r| == 4 * ((|bytes| + 2) / 3)
    decreases |bytes|
  {
    if |bytes| == 0 then ""
    else
      var b1 := if |bytes| >= 2 then bytes[1] else 0;
      var b2 := if |bytes| >= 3 then bytes[2] else 0;
      if |bytes| < 3 then EncodeGroup(bytes[0], b1, b2, |bytes|)
      else EncodeGroup(bytes[0], b1, b2, 3) + Encode(bytes[3..])
  }

  /** A group of four characters; `=` padding is allowed only in the last group. */
  predicate IsGroup(g: string, last: bool) {
    |g| == 4 && IsAlphabetChar(g[0]) && IsAlphabetChar(g[1])
    && (if g[2] == '=' then last && g[3] == '='
        else IsAlphabetChar(g[2]) && (g[3] == '=' ==> last) && (g[3] == '=' || IsAlphabetChar(g[3])))
  }

  /** A well-formed encoding: a sequence of groups, padding only at the end. */
  predicate IsEncoding(s: string)
    decreases |s|
  {
    |s| % 4 == 0 && (|s| == 0 || (IsGroup(s[..4], |s| == 4) && IsEncoding(s[4..])))
  }

  /** The bytes of one group. */
  function DecodeGroup(g: string, last: bool): seq<int>
    requires IsGroup(g, last)
  {
    var v0, v1 := ValueOf(g[0]), ValueOf(g[1]);
    if g[2] == '=' then [v0 * 4 + v1 / 16]
    else
      var v2 := ValueOf(g[2]);
      if g[3] == '=' then [v0 * 4 + v1 / 16, (v1 % 16) * 16 + v2 / 4]
      else [v0 * 4 + v1 / 16, (v1 % 16) * 16 + v2 / 4, (v2 % 4) * 64 + ValueOf(g[3])]
  }

  /** The inverse of `Encode`, on well-formed encodings. */
  function Decode(s: string): seq<int>
    requires IsEncoding(s)
    decreases |s|
  {
    if |s| == 0 then [] else DecodeGroup(s[..4], |s| == 4) + Decode(s[4..])
  }

  /** Arithmetic of one group: the three bytes are recovered from the four 6-bit values. */
  lemma GroupArithmetic(b0: int, b1: int, b2: int)
    requires IsByte(b0) && IsByte(b1) && IsByte(b2)
    ensures var v := Sextets(b0, b1, b2);
      v.0 * 4 + v.1 / 16 == b0 && (v.1 % 16) * 16 + v.2 / 4 == b1 && (v.2 % 4) * 64 + v.3 == b2
  {
    var v := Sextets(b0, b1, b2);
    assert v.1 / 16 == b0 % 4 && v.1 % 16 == b1 / 16;
    assert v.2 / 4 == b1 % 16 && v.2 % 4 == b2 / 64;
  }

  lemma GroupRoundTrip(b0: int, b1: int, b2: int, n: int, last: bool)
    requires IsByte(b0) && IsByte(b1) && IsByte(b2) && 1 <= n <= 3
    requires n < 3 ==> last
    ensures IsGroup(EncodeGroup(b0, b1, b2, n), last)
    ensures DecodeGroup(EncodeGroup(b0, b1, b2, n), last) == [b0, b1, b2][..n]
  {
    var v := Sextets(b0, b1, b2);
    ValueOfCharOf(v.0);
    ValueOfCharOf(v.1);
    ValueOfCharOf(v.2);
    ValueOfCharOf(v.3);
    GroupArithmetic(b0, b1, b2);
  }

  /** An encoding extended in front by one group. */
  lemma DecodeCons(g: string, rest: string)
    requires IsGroup(g, rest == []) && IsEncoding(rest)
    ensures IsEncoding(g + rest) && Decode(g + rest) == DecodeGroup(g, rest == []) + Decode(rest)
  {
    var e := g + rest;
    assert e[..4] == g && e[4..] == rest;
  }

  /** Decoding an encoding gives the bytes back. */
  lemma {:induction false} DecodeEncode(bytes: seq<int>)
    requires forall i :: 0 <= i < |bytes| ==> IsByte(bytes[i])
    ensures IsEncoding(Encode(bytes)) && Decode(Encode(bytes)) == bytes
    decreases |bytes|
  {
    if |bytes| > 0 {
      var b1 := if |bytes| >= 2 then bytes[1] else 0;
      var b2 := if |bytes| >= 3 then bytes[2] else 0;
      var n := if |bytes| < 3 then |bytes| else 3;
      var g := EncodeGroup(bytes[0], b1, b2, n);
      var rest := if |bytes| < 3 then [] else bytes[3..];
      DecodeEncode(rest);
      assert Encode(bytes) == g + Encode(rest);
      GroupRoundTrip(bytes[0], b1, b2, n, Encode(rest) == []);
      DecodeCons(g, Encode(rest));
      assert bytes == [bytes[0], b1, b2][..n] + rest;
    }
  }

  /** An encoding holds only alphabet characters and `=`. */
  lemma {:induction false} EncodingAlphabet(s: string)
    requires IsEncoding(s)
    ensures forall i :: 0 <= i < |s| ==> IsAlphabetChar(s[i]) || s[i] == '='
    decreases |s|
  {
    if |s| > 0 {
      EncodingAlphabet(s[4..]);
      forall i | 0 <= i < |s| ensures IsAlphabetChar(s[i]) || s[i] == '=' {
        if i >= 4 {
          assert s[i] == s[4..][i - 4];
        } else {
          assert s[i] == s[..4][i];
        }
      }
    }
  }

  /** `btoa(s)`: the encoding of the string's characters as bytes, or `None` when `btoa` throws. */
  function Btoa(s: string): (r: Option<string>)
    ensures r.None? <==> exists i :: 0 <= i < |s| && s[i] as int >= 256
    ensures r.Some? ==> |r.value| == 4 * ((|s| + 2) / 3)
  {
    if forall i :: 0 <= i < |s| ==> s[i] as int < 256 then
      Some(Encode(seq(|s|, i requires 0 <= i < |s| => s[i] as int)))
    else None
  }

  /** `btoa` loses nothing: its output decodes back to the input's character codes. */
  lemma BtoaRoundTrip(s: string)
    requires Btoa(s).Some?
    ensures IsEncoding(Btoa(s).value)
    ensures var d := Decode(Btoa(s).value); |d| == |s| && forall i :: 0 <= i < |s| ==> d[i] == s[i] as int
  {
    DecodeEncode(seq(|s|, i requires 0 <= i < |s| => s[i] as int));
  }
}
