/**
  The guard around the calculator's evaluator: the parenthesis balance check, and
  `tryEval`, which returns 0 for an empty expression, refuses an unbalanced one and
  otherwise hands the text to the JavaScript runtime, kept here as an oracle.
 */
module Evaluator {
  import opened Wrappers

  /** The change of the parenthesis count at one character. */
  function Delta(c: char): int {
    if c == '(' then 1 else if c == ')' then -1 else 0
  }

  /** The number of `(` minus the number of `)` in `s`. */
  function Depth(s: string): int {
    if s == [] then 0 else Depth(s[..|s| - 1]) + Delta(s[|s| - 1])
  }

  /** Balanced: the running count never drops below zero and ends at zero. */
  predicate Balanced(s: string) {
    && (forall k :: 0 <= k <= |s| ==> Depth(s[..k]) >= 0)
    && Depth(s) == 0
  }

  /** `parenthesesBalanced`: one pass with a counter, stopping as soon as it goes negative. */
  method ParenthesesBalanced(s: string) returns (b: bool)
    ensures b == Balanced(s)
  {
    var c := 0;
    var i := 0;
    while i < |s|
      invariant 0 <= i <= |s|
      invariant c == Depth(s[..i])
      invariant forall k :: 0 <= k <= i ==> Depth(s[..k]) >= 0
    {
      assert s[..i + 1][..i] == s[..i];
      if s[i] == '(' {
        c := c + 1;
      } else if s[i] == ')' {
        c := c - 1;
        if c < 0 {
          assert Depth(s[..i + 1]) < 0;
          return false;
        }
      }
      i := i + 1;
    }
    assert s[..|s|] == s;
    return c == 0;
  }

  lemma {:induction false} DepthConcat(a: string, b: string)
    ensures Depth(a + b) == Depth(a) + Depth(b)
    decreases |b|
  {
    if b != [] {
      var b' := b[..|b| - 1];
      assert (a + b)[..|a + b| - 1] == a + b';
      assert (a + b)[|a + b| - 1] == b[|b| - 1];
      DepthConcat(a, b');
      assert Depth(a + b) == Depth(a + b') + Delta(b[|b| - 1]);
      assert Depth(b) == Depth(b') + Delta(b[|b| - 1]);
    } else {
      assert a + b == a;
    }
  }

  lemma {:induction false} NoParensDepth(s: string)
    requires '(' !in s && ')' !in s
    ensures Depth(s) == 0
    decreases |s|
  {
    if s != [] {
      assert s[|s| - 1] in s;
      var t := s[..|s| - 1];
      assert forall c :: c in t ==> c in s;
      NoParensDepth(t);
    }
  }

  /** A text without parentheses is balanced. */
  lemma NoParensBalanced(s: string)
    requires '(' !in s && ')' !in s
    ensures Balanced(s)
  {
    forall k | 0 <= k <= |s| ensures Depth(s[..k]) >= 0 {
      assert forall c :: c in s[..k] ==> c in s;
      NoParensDepth(s[..k]);
    }
    NoParensDepth(s);
  }

  lemma WrapDepth(s: string)
    ensures Depth("(" + s + ")") == Depth(s)
  {
    DepthConcat("(" + s, ")");
    DepthConcat("(", s);
    assert Depth("(") == 1 && Depth(")") == -1;
  }

  /** Putting a balanced text between parentheses, as the `√(…)`, `(…)²` and `1/(…)`
      notations do, keeps it balanced. */
  lemma WrapKeepsBalance(s: string)
    requires Balanced(s)
    ensures Balanced("(" + s + ")")
  {
    var w := "(" + s + ")";
    forall k | 0 <= k <= |w| ensures Depth(w[..k]) >= 0 {
      if 1 <= k <= |s| + 1 {
        assert w[..k] == "(" + s[..k - 1];
        DepthConcat("(", s[..k - 1]);
        assert Depth("(") == 1;
      } else if k == |w| {
        assert w[..k] == w;
        WrapDepth(s);
      }
    }
    WrapDepth(s);
  }

  /** The numeric side of the calculator that is JavaScript's, not the calculator's:
      `run` is `Function('"use strict"; return ' + expr)()` giving a finite number or failing
      (any other value, a non-finite one, or a thrown error), `round` is `roundNumber`
      (ten decimals), `sqrt` is `Math.sqrt`, and `show` is `Number.prototype.toString`. */
  datatype Numerics = Numerics(
    run: string -> Option<real>,
    round: real -> real,
    sqrt: real -> real,
    show: real -> string)

  /** `tryEval`. */
  function TryEval(expr: string, num: Numerics): (r: Option<real>)
    ensures expr == [] ==> r == Some(0.0)
    ensures expr != [] && !Balanced(expr) ==> r == None
    ensures expr != [] && r.Some? ==> Balanced(expr) && num.run(expr).Some? && r.value == num.round(num.run(expr).value)
    ensures expr != [] && Balanced(expr) && num.run(expr).None? ==> r == None
  {
    if expr == [] then Some(0.0)
    else if !Balanced(expr) then None
    else match num.run(expr)
      case Some(v) => Some(num.round(v))
      case None => None
  }

  /** A lone `(` is refused before it reaches the runtime. */
  lemma OpenParenRefused(num: Numerics)
    ensures TryEval("(", num) == None
  {
    assert "("[..1] == "(";
    assert Depth("(") == 1;
  }
}
