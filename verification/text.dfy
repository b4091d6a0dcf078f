/** The string primitives the client relies on: `String.prototype.trim`,
    JavaScript truthiness of strings, `Array.prototype.join` and the first
    letter shown in an avatar. */
module Text {

  /** The code points ECMAScript's `trim` strips: the WhiteSpace and
      LineTerminator productions of the language (ECMA-262, section 12.2 and
      12.3), including every space separator of Unicode category Zs. */
  predicate IsWhitespace(c: char) {
    || c == '\t' || c == '\n' || c == '\U{000B}' || c == '\U{000C}' || c == '\r'
    || c == ' ' || c == '\U{00A0}' || c == '\U{1680}'
    || ('\U{2000}' <= c <= '\U{200A}')
    || c == '\U{2028}' || c == '\U{2029}' || c == '\U{202F}' || c == '\U{205F}'
    || c == '\U{3000}' || c == '\U{FEFF}'
  }

  /** Every character of `s` is whitespace (vacuously true of ""). */
  predicate AllWhitespace(s: string) {
    forall i :: 0 <= i < |s| ==> IsWhitespace(s[i])
  }

  /** `s` with its leading whitespace removed. */
  function TrimStart(s: string): (r: string)
    ensures |r| <= |s| && r == s[|s| - |r|..]
    ensures AllWhitespace(s[..|s| - |r|])
    ensures |r| > 0 ==> !IsWhitespace(r[0])
  {
    if |s| > 0 && IsWhitespace(s[0]) then TrimStart(s[1..]) else s
  }

  /** `s` with its trailing whitespace removed. */
  function TrimEnd(s: string): (r: string)
    ensures |r| <= |s| && r == s[..|r|]
    ensures AllWhitespace(s[|r|..])
    ensures |r| > 0 ==> !IsWhitespace(r[|r| - 1])
  {
    if |s| > 0 && IsWhitespace(s[|s| - 1]) then TrimEnd(s[..|s| - 1]) else s
  }

  /** `s.trim()`: the slice of `s` left after stripping whitespace at both ends. */
  function Trim(s: string): (r: string)
    ensures exists lo ::
              && 0 <= lo <= |s| - |r| && r == s[lo..lo + |r|]
              && AllWhitespace(s[..lo]) && AllWhitespace(s[lo + |r|..])
    ensures |r| > 0 ==> !IsWhitespace(r[0]) && !IsWhitespace(r[|r| - 1])
  {
    var t := TrimStart(s);
    var r := TrimEnd(t);
    var lo := |s| - |t|;
    assert r == s[lo..lo + |r|];
    assert s[lo + |r|..] == t[|r|..];
    r
  }

  /** The client's notion of an empty input: `!s.trim()`. */
  predicate IsBlank(s: string) {
    Trim(s) == ""
  }

  /** JavaScript truthiness of a string: only "" is falsy. */
  predicate Truthy(s: string) {
    s != ""
  }

  /** A string is blank exactly when every character of it is whitespace. */
  lemma {:induction false} BlankIffAllWhitespace(s: string)
    ensures IsBlank(s) <==> AllWhitespace(s)
  {
    if !AllWhitespace(s) {
      var i :| 0 <= i < |s| && !IsWhitespace(s[i]);
      var t := TrimStart(s);
      assert |s| - |t| <= i;
    }
  }

  /** Trimming a trimmed string changes nothing. */
  lemma {:induction false} TrimIdempotent(s: string)
    ensures Trim(Trim(s)) == Trim(s)
  {
    var r := Trim(s);
    if |r| > 0 {
      assert TrimStart(r) == r;
      assert TrimEnd(r) == r;
    }
  }

  /** A blank string is never truthy once trimmed, and a non-blank one is. */
  lemma TrimmedTruthyIffNotBlank(s: string)
    ensures Truthy(Trim(s)) <==> !IsBlank(s)
  {
  }

  /** The summed length of the strings in `xs`. */
  function TotalLength(xs: seq<string>): nat
    decreases |xs|
  {
    if |xs| == 0 then 0 else |xs[0]| + TotalLength(xs[1..])
  }

  /** `xs.join(sep)`: the elements in order with one separator between each
      neighbouring pair, so its length is the elements' plus one separator fewer
      than there are elements; it starts with the first element. */
  function Join(xs: seq<string>, sep: string): (r: string)
    ensures |xs| == 0 ==> r == ""
    ensures |xs| > 0 ==> |r| == TotalLength(xs) + (|xs| - 1) * |sep|
    ensures |xs| > 0 ==> |xs[0]| <= |r| && r[..|xs[0]|] == xs[0]
    decreases |xs|
  {
    if |xs| == 0 then ""
    else if |xs| == 1 then xs[0]
    else xs[0] + sep + Join(xs[1..], sep)
  }

  /** Joining one more element appends the separator and the element. */
  lemma {:induction false} JoinSnoc(xs: seq<string>, x: string, sep: string)
    requires |xs| > 0
    ensures Join(xs + [x], sep) == Join(xs, sep) + sep + x
    decreases |xs|
  {
    if |xs| == 1 {
      assert xs + [x] == [xs[0], x];
      assert [xs[0], x][1..] == [x];
    } else {
      assert (xs + [x])[1..] == xs[1..] + [x];
      JoinSnoc(xs[1..], x, sep);
    }
  }

  /** `c.toUpperCase()` on the ASCII letters; every other character is kept. */
  function ToUpperAscii(c: char): (r: char)
    ensures 'a' <= c <= 'z' ==> 'A' <= r <= 'Z' && r as int - c as int == 'A' as int - 'a' as int
    ensures !('a' <= c <= 'z') ==> r == c
  {
    if 'a' <= c <= 'z' then (c as int - 'a' as int + 'A' as int) as char else c
  }

  /** `s.charAt(0).toUpperCase()`: the first character, upper-cased, or "" for "". */
  function Initial(s: string): (r: string)
    ensures |r| <= 1
    ensures |r| == 1 <==> |s| > 0
    ensures |s| > 0 ==> r[0] == ToUpperAscii(s[0])
  {
    if |s| == 0 then "" else [ToUpperAscii(s[0])]
  }
}
