/**
  The sign toggle of the expression calculator (the `+/-` key): on the whole current
  token, on a trailing `sin(`/`cos(`/`tan(` call, on the last number, or, when the token
  holds a `^`, only on the exponent after the last `^`.
 */
module SignToggle {
  import opened Wrappers
  import opened JsText
  import opened NumberScanner

  /** The test `/(sin|cos|tan)\(([^)]*)\)$/` makes at index `st`: a function name, `(`, an
      argument without `)`, and the `)` that ends the text. */
  predicate IsCallAt(s: string, st: nat) {
    && st + 5 <= |s|
    && s[st..st + 3] in {"sin", "cos", "tan"}
    && s[st + 3] == '('
    && s[|s| - 1] == ')'
    && ')' !in s[st + 4..|s| - 1]
  }

  /** The leftmost index at or after `from` where that pattern matches, as the regular
      expression engine finds it. */
  function FindCall(s: string, from: nat): (r: Option<nat>)
    ensures r.Some? ==> from <= r.value && IsCallAt(s, r.value)
    ensures r.Some? ==> forall j :: from <= j < r.value ==> !IsCallAt(s, j)
    ensures r.None? ==> forall j :: from <= j ==> !IsCallAt(s, j)
    decreases |s| - from
  {
    if from + 5 > |s| then None
    else if IsCallAt(s, from) then Some(from)
    else FindCall(s, from + 1)
  }

  /** The new text of one number span: `-N` loses its sign, `(-N)` is unwrapped, and any
      other `N` becomes `(-N)`. */
  function ToggleNumber(n: string): string {
    if StartsWith(n, "-") then n[1..]
    else if StartsWith(n, "(") && EndsWith(n, ")") && |n| >= 2 && StartsWith(n[1..|n| - 1], "-") then n[2..|n| - 1]
    else "(-" + n + ")"
  }

  /** `toggleSignAtCurrentPosition`. */
  function ToggleSign(input: string): string {
    if input == [] then "-"
    else if input == "-" then []
    else match FindCall(input, 0)
      case Some(st) =>
        var before := input[..st];
        if EndsWith(before, "-") then before[..|before| - 1] + input[st..]
        else before + "-" + input[st..]
      case None =>
        var spans := NumberSpans(input);
        if |spans| == 0 then input + "-"
        else
          LastSpanInside(input);
          var last := spans[|spans| - 1];
          input[..last.start] + ToggleNumber(input[last.start..last.end]) + input[last.end..]
  }

  /** The last number span lies inside the text. */
  lemma LastSpanInside(s: string)
    requires NumberSpans(s) != []
    ensures var last := NumberSpans(s)[|NumberSpans(s)| - 1];
      last.start < last.end <= |s|
  {
    NumberSpansOk(s);
  }

  // ---------------------------------------------------------------------------
  // Toggling a trailing trigonometric call

  /** After a `-` is inserted just before the leftmost call, the leftmost call is the same
      one, one place further right. */
  lemma {:induction false} CallAfterInsert(s: string, st: nat)
    requires FindCall(s, 0) == Some(st)
    ensures FindCall(s[..st] + "-" + s[st..], 0) == Some(st + 1)
  {
    var t := s[..st] + "-" + s[st..];
    assert t[st + 1..] == s[st..];
    assert t[st + 1..st + 4] == s[st..st + 3];
    assert t[|t| - 1] == s[|s| - 1];
    assert t[st + 5..|t| - 1] == s[st + 4..|s| - 1];
    assert IsCallAt(t, st + 1);
    forall j | 0 <= j < st + 1 ensures !IsCallAt(t, j) {
      if j + 3 < st {
        assert t[j..j + 3] == s[j..j + 3];
        assert t[j + 3] == s[j + 3];
        assert t[j + 4..|t| - 1] == s[j + 4..st] + "-" + s[st..|s| - 1];
        assert s[j + 4..|s| - 1] == s[j + 4..st] + s[st..|s| - 1];
        assert !IsCallAt(s, j);
      } else if j + 3 == st {
        assert t[j + 3] == '-';
      } else if j < st {
        assert t[j + 3] == s[j + 2] == s[st..st + 3][j + 2 - st];
      } else {
        assert t[j..j + 3][0] == '-';
      }
    }
  }

  /** After the `-` just before the leftmost call is removed, the leftmost call is the same
      one, one place further left. */
  lemma CallAfterRemove(s: string, st: nat)
    requires FindCall(s, 0) == Some(st) && st > 0 && s[st - 1] == '-'
    ensures FindCall(s[..st - 1] + s[st..], 0) == Some(st - 1)
  {
    var t := s[..st - 1] + s[st..];
    RemovedCallAt(s, st);
    forall j | 0 <= j < st - 1 ensures !IsCallAt(t, j) {
      if j + 3 < st - 1 {
        assert !IsCallAt(s, j);
        RemovedFarCall(s, st, j);
      } else {
        RemovedNearCall(s, st, j);
      }
    }
  }

  /** The call moves one place left with the `-` removed before it. */
  lemma RemovedCallAt(s: string, st: nat)
    requires IsCallAt(s, st) && st > 0
    ensures IsCallAt(s[..st - 1] + s[st..], st - 1)
  {
    var t := s[..st - 1] + s[st..];
    assert t[st - 1..] == s[st..];
    assert t[st - 1..st + 2] == s[st..st + 3];
    assert t[|t| - 1] == s[|s| - 1];
    assert t[st + 3..|t| - 1] == s[st + 4..|s| - 1];
  }

  /** A place whose would-be `(` lies before the removed `-` matches in the new text only if
      it matched in the old one. */
  lemma RemovedFarCall(s: string, st: nat, j: nat)
    requires IsCallAt(s, st) && st > 0 && s[st - 1] == '-' && j + 3 < st - 1 && !IsCallAt(s, j)
    ensures !IsCallAt(s[..st - 1] + s[st..], j)
  {
    var t := s[..st - 1] + s[st..];
    assert t[j..j + 3] == s[j..j + 3];
    assert t[j + 3] == s[j + 3];
    assert t[j + 4..|t| - 1] == t[j + 4..st - 1] + t[st - 1..|t| - 1];
    assert t[j + 4..st - 1] == s[j + 4..st - 1];
    assert t[st - 1..|t| - 1] == s[st..|s| - 1];
    assert s[j + 4..|s| - 1] == s[j + 4..st - 1] + [s[st - 1]] + s[st..|s| - 1];
  }

  /** A place just before the call cannot match: its `(` would be a letter of the name. */
  lemma RemovedNearCall(s: string, st: nat, j: nat)
    requires IsCallAt(s, st) && st > 0 && j < st - 1 <= j + 3
    ensures !IsCallAt(s[..st - 1] + s[st..], j)
  {
    var t := s[..st - 1] + s[st..];
    assert t[j + 3] == s[j + 4] == s[st..st + 3][j + 4 - st];
  }

  /** On a text that ends in a `sin`, `cos` or `tan` call, a toggle inserts or removes exactly
      one `-` just before the function name of the leftmost such call and changes nothing else. */
  lemma CallToggle(s: string)
    requires FindCall(s, 0).Some?
    ensures var st := FindCall(s, 0).value;
      if st > 0 && s[st - 1] == '-' then ToggleSign(s) == s[..st - 1] + s[st..]
      else ToggleSign(s) == s[..st] + "-" + s[st..]
  {
    var st := FindCall(s, 0).value;
    assert s != [] && s != "-";
    assert st > 0 ==> s[..st][st - 1..] == [s[st - 1]];
    assert st > 0 ==> s[..st][..st - 1] == s[..st - 1];
  }

  /** Toggling a trailing call twice restores the text, except when two `-` precede the
      function name: then the second toggle removes the second `-` too. */
  lemma CallToggleTwice(s: string)
    requires FindCall(s, 0).Some?
    ensures var st := FindCall(s, 0).value;
      ToggleSign(ToggleSign(s)) == s <==> !(st >= 2 && s[st - 1] == '-' && s[st - 2] == '-')
  {
    var st := FindCall(s, 0).value;
    if st > 0 && s[st - 1] == '-' {
      TwiceAfterRemove(s, st);
    } else {
      TwiceAfterInsert(s, st);
    }
  }

  lemma TwiceAfterRemove(s: string, st: nat)
    requires FindCall(s, 0) == Some(st) && st > 0 && s[st - 1] == '-'
    ensures ToggleSign(ToggleSign(s)) == s <==> !(st >= 2 && s[st - 2] == '-')
  {
    if st >= 2 && s[st - 2] == '-' {
      TwiceAfterDoubleMinus(s, st);
    } else {
      TwiceAfterSingleMinus(s, st);
    }
  }

  /** With `--` before the call, the toggle removes one `-` and then the other. */
  lemma TwiceAfterDoubleMinus(s: string, st: nat)
    requires FindCall(s, 0) == Some(st) && st >= 2 && s[st - 1] == '-' && s[st - 2] == '-'
    ensures |ToggleSign(ToggleSign(s))| == |s| - 2
  {
    CallToggle(s);
    var t := s[..st - 1] + s[st..];
    CallAfterRemove(s, st);
    CallToggle(t);
    assert t[st - 2] == '-';
  }

  /** With a single `-` before the call, the toggle removes it and puts it back. */
  lemma TwiceAfterSingleMinus(s: string, st: nat)
    requires FindCall(s, 0) == Some(st) && st > 0 && s[st - 1] == '-'
    requires !(st >= 2 && s[st - 2] == '-')
    ensures ToggleSign(ToggleSign(s)) == s
  {
    CallToggle(s);
    var t := s[..st - 1] + s[st..];
    CallAfterRemove(s, st);
    CallToggle(t);
    assert t[..st - 1] == s[..st - 1] && t[st - 1..] == s[st..];
    assert s == s[..st - 1] + "-" + s[st..];
  }

  lemma TwiceAfterInsert(s: string, st: nat)
    requires FindCall(s, 0) == Some(st) && !(st > 0 && s[st - 1] == '-')
    ensures ToggleSign(ToggleSign(s)) == s
  {
    CallToggle(s);
    var t := s[..st] + "-" + s[st..];
    assert ToggleSign(s) == t;
    CallAfterInsert(s, st);
    CallToggle(t);
    assert t[st] == '-';
    assert t[..st] == s[..st] && t[st + 1..] == s[st..];
    assert s == s[..st] + s[st..];
  }

  /** The usual case: when the text before the call has no `(`, the call found is the one
      written last, and its sign flips. */
  lemma {:induction false} PlainPrefixCall(before: string, fn: string, x: string)
    requires fn in {"sin", "cos", "tan"} && '(' !in before && ')' !in x
    ensures FindCall(before + fn + "(" + x + ")", 0) == Some(|before|)
  {
    var s := before + fn + "(" + x + ")";
    assert s[|before|..|before| + 3] == fn;
    assert s[|before| + 4..|s| - 1] == x;
    assert IsCallAt(s, |before|);
    forall j | 0 <= j < |before| ensures !IsCallAt(s, j) {
      if j + 3 < |before| {
        assert s[j + 3] == before[j + 3];
      } else {
        assert s[j + 3] == fn[j + 3 - |before|];
      }
    }
  }

  // ---------------------------------------------------------------------------
  // Toggling the last number

  /** The `(-N)` branch of `ToggleNumber` never applies to a span the scanner reports: a
      span that starts with `(` is that single character. */
  lemma ParenthesizedBranchUnused(s: string, k: nat)
    requires k < |NumberSpans(s)|
    ensures var sp := NumberSpans(s)[k];
      sp.start < sp.end <= |s| && var n := s[sp.start..sp.end]; !(StartsWith(n, "(") && EndsWith(n, ")"))
  {
    SpanShapes(s, k);
    var sp := NumberSpans(s)[k];
    var n := s[sp.start..sp.end];
    assert n[0] == s[sp.start];
    assert n[|n| - 1] == s[sp.end - 1];
  }

  /** Without a trailing call: with no number in the text a `-` is appended; otherwise only
      the last number span changes (`-N` to `N`, any other `N` to `(-N)`), the text before
      and after it is kept, and what follows it holds no number. */
  lemma LastNumberToggle(s: string)
    requires s != [] && s != "-" && FindCall(s, 0).None?
    ensures NumberSpans(s) == [] ==> ToggleSign(s) == s + "-"
    ensures NumberSpans(s) != [] ==>
      var last := NumberSpans(s)[|NumberSpans(s)| - 1];
      && last.start < last.end <= |s|
      && var n := s[last.start..last.end];
      && (forall p :: last.end <= p < |s| ==> !IsDigitStart(s, p))
      && ToggleSign(s) == s[..last.start] + (if n[0] == '-' then n[1..] else "(-" + n + ")") + s[last.end..]
  {
    var spans := NumberSpans(s);
    if spans != [] {
      var last := spans[|spans| - 1];
      assert last.start < last.end <= |s| && forall p :: last.end <= p < |s| ==> !IsDigitStart(s, p) by {
        NumberSpansOk(s);
        assert GapStart(spans, 0, |spans|) == last.end;
      }
      var n := s[last.start..last.end];
      assert ToggleNumber(n) == if n[0] == '-' then n[1..] else "(-" + n + ")" by {
        ParenthesizedBranchUnused(s, |spans| - 1);
        assert StartsWith(n, "-") <==> n[0] == '-';
      }
      ToggleAtLastSpan(s);
    }
  }

  predicate AllDigits(d: string) {
    forall i :: 0 <= i < |d| ==> IsDigit(d[i])
  }

  lemma {:induction false} SpanEndToTheEnd(s: string, j: nat)
    requires j <= |s| && forall k :: j <= k < |s| ==> IsDigitPart(s, k)
    ensures SpanEnd(s, j) == |s|
    decreases |s| - j
  {
    if j < |s| { SpanEndToTheEnd(s, j + 1); }
  }

  /** A text whose characters are all digits, `-`, `(` and `)` contains no call. */
  lemma NoCallWithoutLetters(s: string)
    requires forall i :: 0 <= i < |s| ==> IsDigit(s[i]) || s[i] in "-()"
    ensures FindCall(s, 0).None?
  {
    forall j | 0 <= j ensures !IsCallAt(s, j) {
      if j + 5 <= |s| { assert s[j..j + 3][0] == s[j]; }
    }
  }

  /** Without a trailing call, the toggle rewrites only the last number span. */
  lemma ToggleAtLastSpan(s: string)
    requires s != [] && s != "-" && FindCall(s, 0).None? && NumberSpans(s) != []
    ensures var last := NumberSpans(s)[|NumberSpans(s)| - 1];
      && last.start < last.end <= |s|
      && ToggleSign(s) == s[..last.start] + ToggleNumber(s[last.start..last.end]) + s[last.end..]
  {
    LastSpanInside(s);
  }

  /** On a plain number the toggle behaves as the source writes it: `N` becomes `(-N)`. */
  lemma DigitsToggle(d: string)
    requires d != [] && AllDigits(d)
    ensures ToggleSign(d) == "(-" + d + ")"
  {
    NoCallWithoutLetters(d);
    assert NumberSpans(d) == [Span(0, |d|)] by {
      SpanEndToTheEnd(d, 1);
      assert IsDigitStart(d, 0);
      assert ScanFrom(d, |d|) == [];
    }
    ToggleAtLastSpan(d);
    assert d[..0] == [] && d[0..|d|] == d && d[|d|..] == [];
    assert ToggleNumber(d) == "(-" + d + ")" by {
      assert d[0] != '-' && d[0] != '(';
    }
  }

  /** `-N` becomes `N`. */
  lemma NegatedDigitsToggle(d: string)
    requires d != [] && AllDigits(d)
    ensures ToggleSign("-" + d) == d
  {
    var m := "-" + d;
    NoCallWithoutLetters(m);
    assert NumberSpans(m) == [Span(0, |m|)] by {
      SpanEndToTheEnd(m, 1);
      assert m[1] == d[0];
      assert IsDigitStart(m, 0);
      assert ScanFrom(m, |m|) == [];
    }
    ToggleAtLastSpan(m);
    assert m[..0] == [] && m[0..|m|] == m && m[|m|..] == [];
    assert ToggleNumber(m) == d by {
      assert m[1..] == d;
    }
  }

  /** The scanner splits `(-N)` into the `(` alone and `-N)`. */
  lemma WrappedSpans(d: string)
    requires d != [] && AllDigits(d)
    ensures NumberSpans("(-" + d + ")") == [Span(0, 1), Span(1, |d| + 3)]
  {
    var p := "(-" + d + ")";
    SpanEndToTheEnd(p, 2);
    assert ScanFrom(p, |p|) == [];
    assert ScanFrom(p, 1) == [Span(1, |p|)];
  }

  /** `(-N)` becomes `(N)`, not `N`: its last number span is `-N)`, not the whole text. */
  lemma WrappedDigitsToggle(d: string)
    requires d != [] && AllDigits(d)
    ensures ToggleSign("(-" + d + ")") == "(" + d + ")"
  {
    var p := "(-" + d + ")";
    NoCallWithoutLetters(p);
    WrappedSpans(d);
    ToggleAtLastSpan(p);
    var n := p[1..|p|];
    assert n == "-" + d + ")";
    assert ToggleNumber(n) == d + ")" by {
      assert n[1..] == d + ")";
    }
    assert p[..1] == "(" && p[|p|..] == [];
  }

  /** `+/-` on `12` gives `(-12)`, and on `(-12)` gives `(12)`: the scanner reads `(-12)` as
      the spans `(` and `-12)`, and only the last span is rewritten. */
  lemma TwelveToggles(d: string)
    requires d == "12"
    ensures ToggleSign(d) == "(-12)"
    ensures ToggleSign(ToggleSign(d)) == "(12)"
  {
    DigitsToggle(d);
    WrappedDigitsToggle(d);
  }

  // ---------------------------------------------------------------------------
  // Toggling the exponent after the last `^`

  /** The new exponent text: `""` and `"-"` swap, `(x)` becomes `x` without one leading `-`,
      a text `parseFloat` reads as a number goes to `flip` (the floating-point branch, kept
      abstract), and anything else is left alone. */
  function ToggledExponent(e: string, flip: string -> string): string {
    if e == [] then "-"
    else if e == "-" then []
    else if StartsWith(e, "(") && EndsWith(e, ")") && |e| >= 2 then
      var inner := e[1..|e| - 1];
      if StartsWith(inner, "-") then inner[1..] else inner
    else if ParseFloatGivesNumber(e) then flip(e)
    else e
  }

  /** The `+/-` key when the token holds a `^`: only the text after the last `^` changes. */
  function ToggleExponent(input: string, flip: string -> string): (r: string)
    requires '^' in input
    ensures var k := LastIndexOf(input, '^');
      0 <= k < |r| && r[..k + 1] == input[..k + 1] && r[k] == '^'
  {
    var k := LastIndexOf(input, '^');
    input[..k + 1] + ToggledExponent(input[k + 1..], flip)
  }

  /** An empty exponent becomes `-` and back. */
  lemma ExponentSignRoundTrip(base: string, flip: string -> string)
    ensures ToggleExponent(base + "^", flip) == base + "^-"
    ensures ToggleExponent(base + "^-", flip) == base + "^"
  {
    LastIndexOfJoin(base, '^', "");
    assert base + "^" == base + ['^'] + "";
    LastIndexOfJoin(base, '^', "-");
    assert base + "^-" == base + ['^'] + "-";
    assert (base + "^-")[..|base| + 1] == base + "^";
  }

  /** A parenthesized negative exponent loses its parentheses and its sign. */
  lemma ExponentUnwrap(base: string, x: string, flip: string -> string)
    requires '^' !in x
    ensures ToggleExponent(base + "^(-" + x + ")", flip) == base + "^" + x
  {
    var s := base + "^(-" + x + ")";
    LastIndexOfJoin(base, '^', "(-" + x + ")");
    assert s == base + ['^'] + ("(-" + x + ")");
    assert s[..|base| + 1] == base + "^";
    var e := s[|base| + 1..];
    assert e == "(-" + x + ")";
    assert e[1..|e| - 1] == "-" + x;
  }

  /** A parenthesized exponent without a sign loses only its parentheses. */
  lemma ExponentUnwrapPlain(base: string, x: string, flip: string -> string)
    requires '^' !in x && !StartsWith(x, "-")
    ensures ToggleExponent(base + "^(" + x + ")", flip) == base + "^" + x
  {
    var s := base + "^(" + x + ")";
    LastIndexOfJoin(base, '^', "(" + x + ")");
    assert s == base + ['^'] + ("(" + x + ")");
    assert s[..|base| + 1] == base + "^";
    var e := s[|base| + 1..];
    assert e == "(" + x + ")";
    assert e[1..|e| - 1] == x;
  }

  /** An exponent that is neither empty, `-`, parenthesized nor numeric is left unchanged, and
      so is the whole token. */
  lemma ExponentNonNumericUnchanged(input: string, flip: string -> string)
    requires '^' in input
    requires var e := input[LastIndexOf(input, '^') + 1..];
      e != [] && e != "-" && !(StartsWith(e, "(") && EndsWith(e, ")")) && !ParseFloatGivesNumber(e)
    ensures ToggleExponent(input, flip) == input
  {
    var k := LastIndexOf(input, '^');
    assert input == input[..k + 1] + input[k + 1..];
  }
}
