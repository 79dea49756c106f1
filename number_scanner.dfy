/**
  The number-span scanner of the expression calculator: it finds the numeric literals
  in the text the user is typing, so that a sign toggle can act on the last one.
 */
module NumberScanner {

  predicate IsDigit(c: char) {
    '0' <= c <= '9'
  }

  /** Can a numeric literal begin at index `i`: a digit, or `-` / `.` followed by a digit,
      or `(` followed by `-` and a digit. */
  predicate IsDigitStart(s: string, i: nat)
    requires i < |s|
  {
    || IsDigit(s[i])
    || (s[i] == '-' && i + 1 < |s| && IsDigit(s[i + 1]))
    || (s[i] == '(' && i + 2 < |s| && s[i + 1] == '-' && IsDigit(s[i + 2]))
    || (s[i] == '.' && i + 1 < |s| && IsDigit(s[i + 1]))
  }

  /** Can the character at index `i` continue a literal: a digit, `.` or `)`. */
  predicate IsDigitPart(s: string, i: nat)
    requires i < |s|
  {
    IsDigit(s[i]) || s[i] == '.' || s[i] == ')'
  }

  /** A half-open span `[start, end)` of the scanned text. */
  datatype Span = Span(start: nat, end: nat)

  /** The first index at or after `j` that does not continue a literal (or the length). */
  function SpanEnd(s: string, j: nat): (e: nat)
    requires j <= |s|
    ensures j <= e <= |s|
    ensures forall k :: j <= k < e ==> IsDigitPart(s, k)
    ensures e == |s| || !IsDigitPart(s, e)
    decreases |s| - j
  {
    if j == |s| || !IsDigitPart(s, j) then j else SpanEnd(s, j + 1)
  }

  /** The spans the scanner reports when it starts at index `i`. */
  function ScanFrom(s: string, i: nat): seq<Span>
    requires i <= |s|
    decreases |s| - i
  {
    if i == |s| then []
    else if s[i] == ' ' then ScanFrom(s, i + 1)
    else if IsDigitStart(s, i) then
      var e := SpanEnd(s, i + 1);
      [Span(i, e)] + ScanFrom(s, e)
    else ScanFrom(s, i + 1)
  }

  /** All numeric-literal spans of `s`, left to right. */
  function NumberSpans(s: string): seq<Span> {
    ScanFrom(s, 0)
  }

  /** The index where the gap before span `k` begins (the gap after the last span when `k == |spans|`). */
  function GapStart(spans: seq<Span>, from: nat, k: nat): nat
    requires k <= |spans|
  {
    if k == 0 then from else spans[k - 1].end
  }

  /** The index where the gap before span `k` ends. */
  function GapEnd(s: string, spans: seq<Span>, k: nat): nat
    requires k <= |spans|
  {
    if k == |spans| then |s| else spans[k].start
  }

  /** The spans lie inside the text from index `from` on, in increasing order and without overlapping. */
  predicate SpansInOrder(s: string, spans: seq<Span>, from: nat) {
    && (forall k :: 0 <= k < |spans| ==> from <= spans[k].start < spans[k].end <= |s|)
    && (forall k :: 0 <= k < |spans| - 1 ==> spans[k].end <= spans[k + 1].start)
  }

  /** Each span starts at a digit start, runs over digit parts only and stops at the first
      character that is not one. */
  predicate SpansAreLiterals(s: string, spans: seq<Span>)
    requires SpansInOrder(s, spans, 0)
  {
    && (forall k :: 0 <= k < |spans| ==> IsDigitStart(s, spans[k].start))
    && (forall k, p :: 0 <= k < |spans| && spans[k].start < p < spans[k].end ==> IsDigitPart(s, p))
    && (forall k :: 0 <= k < |spans| ==> spans[k].end == |s| || !IsDigitPart(s, spans[k].end))
  }

  /** No index in a gap between spans (or before the first, or after the last) is a digit start. */
  predicate GapsHaveNoStart(s: string, spans: seq<Span>, from: nat)
    requires from <= |s| && SpansInOrder(s, spans, from)
  {
    forall k, p :: 0 <= k <= |spans| && GapStart(spans, from, k) <= p < GapEnd(s, spans, k) ==> !IsDigitStart(s, p)
  }

  lemma {:induction false} ScanFromInOrder(s: string, i: nat)
    requires i <= |s|
    ensures SpansInOrder(s, ScanFrom(s, i), i)
    decreases |s| - i
  {
    if i < |s| {
      if s[i] == ' ' || !IsDigitStart(s, i) {
        ScanFromInOrder(s, i + 1);
      } else {
        var e := SpanEnd(s, i + 1);
        ScanFromInOrder(s, e);
        var rest := ScanFrom(s, e);
        var spans := [Span(i, e)] + rest;
        assert ScanFrom(s, i) == spans;
        forall k | 0 <= k < |spans| - 1 ensures spans[k].end <= spans[k + 1].start {
          if k > 0 { assert spans[k] == rest[k - 1] && spans[k + 1] == rest[k]; }
        }
      }
    }
  }

  lemma {:induction false} ScanFromLiterals(s: string, i: nat)
    requires i <= |s|
    ensures SpansInOrder(s, ScanFrom(s, i), 0) && SpansAreLiterals(s, ScanFrom(s, i))
    decreases |s| - i
  {
    ScanFromInOrder(s, i);
    if i < |s| {
      if s[i] == ' ' || !IsDigitStart(s, i) {
        ScanFromLiterals(s, i + 1);
      } else {
        var e := SpanEnd(s, i + 1);
        ScanFromLiterals(s, e);
        var rest := ScanFrom(s, e);
        var spans := [Span(i, e)] + rest;
        assert ScanFrom(s, i) == spans;
        forall k, p | 0 <= k < |spans| && spans[k].start < p < spans[k].end
          ensures IsDigitPart(s, p)
        {
          if k > 0 { assert spans[k] == rest[k - 1]; }
        }
      }
    }
  }

  lemma {:induction false} ScanFromGaps(s: string, i: nat)
    requires i <= |s|
    ensures SpansInOrder(s, ScanFrom(s, i), i) && GapsHaveNoStart(s, ScanFrom(s, i), i)
    decreases |s| - i
  {
    ScanFromInOrder(s, i);
    if i < |s| {
      if s[i] == ' ' || !IsDigitStart(s, i) {
        ScanFromGaps(s, i + 1);
        var spans := ScanFrom(s, i);
        assert spans == ScanFrom(s, i + 1);
        forall k, p | 0 <= k <= |spans| && GapStart(spans, i, k) <= p < GapEnd(s, spans, k)
          ensures !IsDigitStart(s, p)
        {
          if k > 0 || p > i {
            assert GapStart(spans, i + 1, k) <= p;
          }
        }
      } else {
        var e := SpanEnd(s, i + 1);
        ScanFromGaps(s, e);
        var rest := ScanFrom(s, e);
        var spans := [Span(i, e)] + rest;
        assert ScanFrom(s, i) == spans;
        forall k, p | 0 <= k <= |spans| && GapStart(spans, i, k) <= p < GapEnd(s, spans, k)
          ensures !IsDigitStart(s, p)
        {
          assert k > 0;
          assert GapStart(spans, i, k) == GapStart(rest, e, k - 1);
          assert GapEnd(s, spans, k) == GapEnd(s, rest, k - 1);
        }
      }
    }
  }

  /** The spans of the whole text are in order, are literals, and leave no digit start uncovered. */
  lemma NumberSpansOk(s: string)
    ensures SpansInOrder(s, NumberSpans(s), 0)
    ensures SpansAreLiterals(s, NumberSpans(s))
    ensures GapsHaveNoStart(s, NumberSpans(s), 0)
  {
    ScanFromLiterals(s, 0);
    ScanFromGaps(s, 0);
  }

  /** Spaces neither start a span nor belong to one; a span that starts with `-` has a digit
      next, and a span that starts with `(` is exactly that one character, because `-` does
      not continue a literal. */
  lemma SpanShapes(s: string, k: nat)
    requires k < |NumberSpans(s)|
    ensures var sp := NumberSpans(s)[k];
      && sp.start < sp.end <= |s|
      && (forall p :: sp.start <= p < sp.end ==> s[p] != ' ')
      && (s[sp.start] == '-' ==> sp.start + 1 < sp.end && IsDigit(s[sp.start + 1]))
      && (s[sp.start] == '(' ==> sp.end == sp.start + 1 && sp.start + 1 < |s| && s[sp.start + 1] == '-')
  {
    NumberSpansOk(s);
    var sp := NumberSpans(s)[k];
    assert IsDigitStart(s, sp.start);
    forall p | sp.start <= p < sp.end ensures s[p] != ' ' {
      if p > sp.start { assert IsDigitPart(s, p); }
    }
    assert sp.start + 1 < sp.end ==> IsDigitPart(s, sp.start + 1);
  }

  /** `findNumberBoundaries`: the scanning loop, which reports exactly `NumberSpans(s)`. */
  method FindNumberBoundaries(s: string) returns (boundaries: seq<Span>)
    ensures boundaries == NumberSpans(s)
  {
    boundaries := [];
    var i := 0;
    while i < |s|
      invariant 0 <= i <= |s|
      invariant boundaries + ScanFrom(s, i) == NumberSpans(s)
    {
      if s[i] == ' ' {
        i := i + 1;
        continue;
      }
      if IsDigitStart(s, i) {
        var start := i;
        var end := i + 1;
        while end < |s| && IsDigitPart(s, end)
          invariant start < end <= |s|
          invariant SpanEnd(s, end) == SpanEnd(s, start + 1)
        {
          end := end + 1;
        }
        assert ScanFrom(s, i) == [Span(start, end)] + ScanFrom(s, end);
        boundaries := boundaries + [Span(start, end)];
        i := end;
      } else {
        i := i + 1;
      }
    }
  }
}
