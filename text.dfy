/** The string conversions the client and the server rely on: JavaScript's `String.prototype.trim`
    (the blank-field guards of the admin forms), the decimal text of a non-negative number (template
    literals and `localStorage.setItem` in the client) and the decimal parsing of an integer path or
    query parameter on the server. */
module Text {
  import opened Wrappers

  /** The characters `trim` removes: ECMAScript's WhiteSpace and LineTerminator code points. */
  predicate IsWhitespace(c: char) {
    || c == '\t' || c == '\n' || c == '\U{B}' || c == '\U{C}' || c == '\r' || c == ' '
    || c == '\U{A0}' || c == '\U{1680}' || ('\U{2000}' <= c <= '\U{200A}')
    || c == '\U{2028}' || c == '\U{2029}' || c == '\U{202F}' || c == '\U{205F}'
    || c == '\U{3000}' || c == '\U{FEFF}'
  }

  predicate IsBlank(s: string) {
    forall i :: 0 <= i < |s| ==> IsWhitespace(s[i])
  }

  /** The number of whitespace characters `s` starts with. */
  function LeadingBlanks(s: string): (k: nat)
    ensures k <= |s|
    ensures forall i :: 0 <= i < k ==> IsWhitespace(s[i])
    ensures k < |s| ==> !IsWhitespace(s[k])
  {
    if s == [] || !IsWhitespace(s[0]) then 0 else 1 + LeadingBlanks(s[1..])
  }

  /** The length of `s` without the whitespace it ends with. */
  function TrailingStart(s: string): (k: nat)
    ensures k <= |s|
    ensures forall i :: k <= i < |s| ==> IsWhitespace(s[i])
    ensures k > 0 ==> !IsWhitespace(s[k - 1])
  {
    if s == [] || !IsWhitespace(s[|s| - 1]) then |s| else TrailingStart(s[..|s| - 1])
  }

  /** `s.trim()`: `s` without its leading and trailing whitespace. */
  function Trim(s: string): string {
    var t := s[LeadingBlanks(s)..];
    t[..TrailingStart(t)]
  }

  /** `!s.trim()` holds exactly when `s` is empty or made of whitespace only, and otherwise the
      trimmed text is a piece of `s` that starts and ends with a non-whitespace character. */
  lemma TrimEmptyIffBlank(s: string)
    ensures Trim(s) == [] <==> IsBlank(s)
    ensures Trim(s) != [] ==> !IsWhitespace(Trim(s)[0]) && !IsWhitespace(Trim(s)[|Trim(s)| - 1])
  {
    var k := LeadingBlanks(s);
    var t := s[k..];
    var n := TrailingStart(t);
    if k == |s| {
      assert t == [];
    } else {
      assert t[0] == s[k];
      assert n > 0;
      assert !IsBlank(s) by {
        assert !IsWhitespace(s[k]);
      }
    }
  }

  predicate IsDigit(c: char) { '0' <= c <= '9' }

  function DigitChar(d: nat): (c: char)
    requires d < 10
    ensures IsDigit(c)
  {
    ('0' as int + d) as char
  }

  function DigitValue(c: char): nat
    requires IsDigit(c)
  {
    c as int - '0' as int
  }

  /** The decimal text of `n`, as JavaScript writes a non-negative integer. */
  function NatToString(n: nat): (s: string)
    ensures |s| >= 1 && forall i :: 0 <= i < |s| ==> IsDigit(s[i])
    ensures |s| > 1 ==> s[0] != '0'
    decreases n
  {
    if n < 10 then [DigitChar(n)] else NatToString(n / 10) + [DigitChar(n % 10)]
  }

  function DigitsValue(s: string): nat
    requires forall i :: 0 <= i < |s| ==> IsDigit(s[i])
  {
    if s == [] then 0 else 10 * DigitsValue(s[..|s| - 1]) + DigitValue(s[|s| - 1])
  }

  /** The server's reading of an integer parameter, restricted to plain digit strings; any other
      text is refused. */
  function ParseNat(s: string): (r: Option<nat>)
    ensures r.Some? ==> s != [] && forall i :: 0 <= i < |s| ==> IsDigit(s[i])
  {
    if s != [] && forall i :: 0 <= i < |s| ==> IsDigit(s[i]) then Some(DigitsValue(s)) else None
  }

  /** The server reads back exactly the number the client wrote. */
  lemma {:induction false} ParseNatRoundTrip(n: nat)
    ensures ParseNat(NatToString(n)) == Some(n)
  {
    DigitsRoundTrip(n);
  }

  lemma {:induction false} DigitsRoundTrip(n: nat)
    ensures DigitsValue(NatToString(n)) == n
    decreases n
  {
    var s := NatToString(n);
    if n >= 10 {
      DigitsRoundTrip(n / 10);
      assert s[..|s| - 1] == NatToString(n / 10);
    }
  }

  // ---------------------------------------------------------------------------------------
  // URL paths

  predicate HasNoSlash(s: string) {
    forall i :: 0 <= i < |s| ==> s[i] != '/'
  }

  /** The position of the first `/` in `s`, or `|s|` when there is none. */
  function SlashIndex(s: string): (i: nat)
    ensures i <= |s| && HasNoSlash(s[..i])
    ensures i < |s| ==> s[i] == '/'
  {
    if s == [] || s[0] == '/' then 0 else 1 + SlashIndex(s[1..])
  }

  /** The path made of the given segments, each introduced by a `/`. */
  function JoinPath(segments: seq<string>): string {
    if segments == [] then "" else "/" + segments[0] + JoinPath(segments[1..])
  }

  /** The segments of a path: the text between one `/` and the next. The first character is
      taken to be the leading `/`. */
  function SplitPath(path: string): (segments: seq<string>)
    ensures forall k :: 0 <= k < |segments| ==> HasNoSlash(segments[k])
    decreases |path|
  {
    if path == [] then []
    else
      var rest := path[1..];
      var i := SlashIndex(rest);
      [rest[..i]] + SplitPath(rest[i..])
  }

  lemma {:induction false} SlashIndexOfJoin(head: string, tail: string)
    requires HasNoSlash(head) && (tail == [] || tail[0] == '/')
    ensures SlashIndex(head + tail) == |head|
    decreases |head|
  {
    if head != [] {
      assert (head + tail)[0] == head[0];
      assert (head + tail)[1..] == head[1..] + tail;
      SlashIndexOfJoin(head[1..], tail);
    }
  }

  /** Splitting a joined path gives back its segments, provided none of them contains a `/`. */
  lemma {:induction false} SplitJoin(segments: seq<string>)
    requires forall k :: 0 <= k < |segments| ==> HasNoSlash(segments[k])
    ensures SplitPath(JoinPath(segments)) == segments
    decreases |segments|
  {
    if segments != [] {
      var rest := JoinPath(segments[1..]);
      var path := JoinPath(segments);
      assert path[1..] == segments[0] + rest;
      SlashIndexOfJoin(segments[0], rest);
      assert path[1..][..|segments[0]|] == segments[0];
      assert path[1..][|segments[0]|..] == rest;
      SplitJoin(segments[1..]);
    }
  }

  /** The path of two and three segments, and of a concatenation of segment lists. */
  lemma JoinPathOfTwo(a: string, b: string)
    ensures JoinPath([a, b]) == "/" + a + "/" + b
  {
    assert [b][1..] == [];
    assert JoinPath([b]) == "/" + b;
    assert [a, b][1..] == [b];
  }

  lemma JoinPathOfThree(a: string, b: string, c: string)
    ensures JoinPath([a, b, c]) == "/" + a + "/" + b + "/" + c
  {
    JoinPathOfTwo(b, c);
    assert [a, b, c][1..] == [b, c];
  }

  lemma {:induction false} JoinPathAppend(xs: seq<string>, ys: seq<string>)
    ensures JoinPath(xs + ys) == JoinPath(xs) + JoinPath(ys)
    decreases |xs|
  {
    if xs != [] {
      assert (xs + ys)[1..] == xs[1..] + ys;
      JoinPathAppend(xs[1..], ys);
    } else {
      assert xs + ys == ys;
    }
  }

  /** A number's decimal text never contains a `/`. */
  lemma NatTextHasNoSlash(n: nat)
    ensures HasNoSlash(NatToString(n))
  {
    var s := NatToString(n);
    forall i | 0 <= i < |s| ensures s[i] != '/' {
      assert IsDigit(s[i]);
    }
  }
}
