/**
  String primitives of JavaScript that the calculator and the recipe parsers rely on:
  the white-space class of `\s` and `String.prototype.trim`, trimming, and `split` on a
  one-character separator.
 */
module JsText {

  /** The characters that JavaScript's `\s` and `trim` treat as white space or line terminators. */
  predicate IsSpace(c: char) {
    || c == ' ' || c == '\t' || c == '\n' || c == '\r' || c == '\U{B}' || c == '\U{C}'
    || c == '\U{A0}' || c == '\U{1680}' || ('\U{2000}' <= c <= '\U{200A}')
    || c == '\U{2028}' || c == '\U{2029}' || c == '\U{202F}' || c == '\U{205F}'
    || c == '\U{3000}' || c == '\U{FEFF}'
  }

  predicate AllSpace(s: string) {
    forall i :: 0 <= i < |s| ==> IsSpace(s[i])
  }

  predicate EndsWith(s: string, suffix: string) {
    |suffix| <= |s| && s[|s| - |suffix|..] == suffix
  }

  /** `s.replace(/\s+$/, '')`: drops the trailing white space. */
  function TrimEnd(s: string): (r: string)
    ensures r <= s && AllSpace(s[|r|..])
    ensures r == [] || !IsSpace(r[|r| - 1])
  {
    if s == [] || !IsSpace(s[|s| - 1]) then s
    else
      var r := TrimEnd(s[..|s| - 1]);
      assert s[..|s| - 1][|r|..] + [s[|s| - 1]] == s[|r|..];
      r
  }

  /** Drops the leading white space. */
  function TrimStart(s: string): (r: string)
    ensures |r| <= |s| && r == s[|s| - |r|..] && AllSpace(s[..|s| - |r|])
    ensures r == [] || !IsSpace(r[0])
  {
    if s == [] || !IsSpace(s[0]) then s
    else
      var r := TrimStart(s[1..]);
      assert s[1..][|s| - 1 - |r|..] == s[|s| - |r|..];
      assert forall i :: 1 <= i < |s| - |r| ==> s[i] == s[1..][..|s| - 1 - |r|][i - 1];
      r
  }

  predicate StartsWith(s: string, prefix: string) {
    prefix <= s
  }

  /** `s.indexOf(c)`: the index of the first `c`, or -1. */
  function IndexOf(s: string, c: char): (r: int)
    ensures -1 <= r < |s|
    ensures r >= 0 ==> s[r] == c
    ensures forall k :: 0 <= k < |s| && (r == -1 || k < r) ==> s[k] != c
  {
    if s == [] then -1
    else if s[0] == c then 0
    else
      var r := IndexOf(s[1..], c);
      assert forall k :: 1 <= k < |s| ==> s[k] == s[1..][k - 1];
      if r == -1 then -1 else r + 1
  }

  /** `s.lastIndexOf(c)`: the index of the last `c`, or -1. */
  function LastIndexOf(s: string, c: char): (r: int)
    ensures -1 <= r < |s|
    ensures r >= 0 ==> s[r] == c
    ensures forall k :: r < k < |s| ==> s[k] != c
  {
    LastIndexBelow(s, c, |s|)
  }

  function LastIndexBelow(s: string, c: char, n: nat): (r: int)
    requires n <= |s|
    ensures -1 <= r < n
    ensures r >= 0 ==> s[r] == c
    ensures forall k :: r < k < n ==> s[k] != c
  {
    if n == 0 then -1 else if s[n - 1] == c then n - 1 else LastIndexBelow(s, c, n - 1)
  }

  /** The last `c` of `s + [c] + t` is the one between them when `t` has none. */
  lemma LastIndexOfJoin(s: string, c: char, t: string)
    requires c !in t
    ensures LastIndexOf(s + [c] + t, c) == |s|
  {
    var u := s + [c] + t;
    assert u[|s|] == c;
    assert forall k :: |s| < k < |u| ==> u[k] == t[k - |s| - 1];
  }

  /** `s.slice(0, -1)`: everything but the last character (nothing for the empty string). */
  function DropLast(s: string): (r: string)
    ensures r <= s && |r| == if s == [] then 0 else |s| - 1
  {
    if s == [] then [] else s[..|s| - 1]
  }

  /** `!isNaN(parseFloat(s))`: after the leading white space and an optional sign, the text
      starts with a digit, with `.` and a digit, or with `Infinity`. */
  predicate ParseFloatGivesNumber(s: string) {
    var t := TrimStart(s);
    var u := if |t| > 0 && (t[0] == '+' || t[0] == '-') then t[1..] else t;
    || (|u| > 0 && '0' <= u[0] <= '9')
    || (|u| > 1 && u[0] == '.' && '0' <= u[1] <= '9')
    || StartsWith(u, "Infinity")
  }

  /** `String.prototype.trim`: drops the leading white space, then the trailing. */
  function Trim(s: string): (r: string)
    ensures r == [] || (!IsSpace(r[0]) && !IsSpace(r[|r| - 1]))
    ensures r == [] <==> AllSpace(s)
  {
    if s != [] && IsSpace(s[0]) then
      var r := Trim(s[1..]);
      assert AllSpace(s[1..]) ==> AllSpace(s) by {
        if AllSpace(s[1..]) {
          assert forall i :: 1 <= i < |s| ==> s[i] == s[1..][i - 1];
        }
      }
      r
    else
      var r := TrimEnd(s);
      assert r != [] ==> r[0] == s[0];
      assert r == [] ==> s[|r|..] == s;
      r
  }

  /** Trimming leaves an already trimmed string alone. */
  lemma TrimOfTrimmed(s: string)
    requires s == [] || (!IsSpace(s[0]) && !IsSpace(s[|s| - 1]))
    ensures Trim(s) == s
  {
  }

  /** `s.split(sep)` for a one-character separator: the pieces between the separators. */
  function Split(s: string, sep: char): (pieces: seq<string>)
    ensures |pieces| >= 1
    ensures forall k :: 0 <= k < |pieces| ==> sep !in pieces[k]
  {
    if s == [] then [[]]
    else
      var rest := Split(s[1..], sep);
      if s[0] == sep then [[]] + rest
      else [[s[0]] + rest[0]] + rest[1..]
  }

  /** There is one more piece than there are separators. */
  lemma {:induction false} SplitCount(s: string, sep: char)
    ensures |Split(s, sep)| == multiset(s)[sep] + 1
  {
    if s != [] {
      SplitCount(s[1..], sep);
      assert s == [s[0]] + s[1..];
      assert multiset(s) == multiset{s[0]} + multiset(s[1..]);
    }
  }

  /** `pieces.join(sep)`. */
  function Join(pieces: seq<string>, sep: char): string
    requires |pieces| >= 1
  {
    if |pieces| == 1 then pieces[0] else pieces[0] + [sep] + Join(pieces[1..], sep)
  }

  /** Splitting and joining again gives back the original text: nothing is lost or added. */
  lemma {:induction false} SplitJoin(s: string, sep: char)
    ensures Join(Split(s, sep), sep) == s
  {
    if s != [] {
      var rest := Split(s[1..], sep);
      SplitJoin(s[1..], sep);
      if s[0] == sep {
        assert Split(s, sep)[1..] == rest;
      } else {
        var p := Split(s, sep);
        assert p[1..] == rest[1..];
        if |rest| > 1 {
          assert rest[1..][1..] == rest[2..];
        }
      }
    }
  }
}
