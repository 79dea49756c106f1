/**
  The text rewrites between the display and the evaluator: `sanitizeEquals`, which drops a
  trailing `=` before an expression is shown again, and `normalizeExpression`, which turns
  the display notation into JavaScript.
 */
module Normalizer {
  import opened Wrappers
  import opened JsText

  // ---------------------------------------------------------------------------
  // Trailing `=`

  /** `s.replace(/\s*=\s*$/, '')`: drops a final `=` with the white space around it. */
  function SanitizeEquals(s: string): (r: string)
    ensures r <= s
    ensures r != s ==> TrimStart(TrimEnd(s[|r|..])) == "=" && (r == [] || !IsSpace(r[|r| - 1]))
    ensures r == s <==> !EndsWith(TrimEnd(s), "=")
  {
    var e := TrimEnd(s);
    if EndsWith(e, "=") then
      var r := TrimEnd(e[..|e| - 1]);
      EqualsTail(s, e, r);
      r
    else s
  }

  lemma EqualsTail(s: string, e: string, r: string)
    requires e == TrimEnd(s) && EndsWith(e, "=") && r == TrimEnd(e[..|e| - 1])
    ensures r <= s && r != s
    ensures TrimStart(TrimEnd(s[|r|..])) == "="
  {
    var mid := e[|r|..|e| - 1];
    assert e[|e| - 1..] == "=";
    EqualsTailShape(s, e, r);
    TrimEndKeepsLast(mid + "=", s[|e|..]);
    TrimStartSkipsSpace(mid, "=");
  }

  /** The text after the kept part is white space, the `=`, and trailing white space. */
  lemma EqualsTailShape(s: string, e: string, r: string)
    requires e <= s && e != [] && e[|e| - 1] == '='
    requires r <= e[..|e| - 1] && AllSpace(e[..|e| - 1][|r|..])
    ensures |r| < |e| <= |s| && r <= s
    ensures AllSpace(e[|r|..|e| - 1])
    ensures s[|r|..] == e[|r|..|e| - 1] + "=" + s[|e|..]
  {
    var mid := e[|r|..|e| - 1];
    assert e[..|e| - 1][|r|..] == mid;
    PrefixTail(s, e, |r|);
    assert e[|r|..] == mid + "=";
  }

  /** What follows index `i` of a text, split at the end of a prefix `e` of it. */
  lemma PrefixTail(s: string, e: string, i: nat)
    requires e <= s && i <= |e|
    ensures s[i..] == e[i..] + s[|e|..]
  {
    assert s[..|e|] == e;
  }

  lemma {:induction false} TrimEndKeepsLast(a: string, sp: string)
    requires a != [] && !IsSpace(a[|a| - 1]) && AllSpace(sp)
    ensures TrimEnd(a + sp) == a
    decreases |sp|
  {
    if sp == [] {
      assert a + sp == a;
    } else {
      assert (a + sp)[..|a + sp| - 1] == a + sp[..|sp| - 1];
      TrimEndKeepsLast(a, sp[..|sp| - 1]);
    }
  }

  lemma {:induction false} TrimStartSkipsSpace(sp: string, a: string)
    requires AllSpace(sp) && (a == [] || !IsSpace(a[0]))
    ensures TrimStart(sp + a) == a
    decreases |sp|
  {
    if sp == [] {
      assert sp + a == a;
    } else {
      assert (sp + a)[1..] == sp[1..] + a;
      TrimStartSkipsSpace(sp[1..], a);
    }
  }

  /** The text `calculate` shows (`expr + " = "`) loses exactly the `" = "` again. */
  lemma SanitizeAfterEquals(r: string)
    requires r == [] || !IsSpace(r[|r| - 1])
    ensures SanitizeEquals(r + " = ") == r
  {
    var s := r + " = ";
    assert s == (r + " =") + " ";
    TrimEndKeepsLast(r + " =", " ");
    assert (r + " =")[..|r| + 1] == r + " ";
    if r == [] {
      assert TrimEnd(" ") == [];
    } else {
      TrimEndKeepsLast(r, " ");
    }
  }

  /** `s.replace(/=\s*$/, '')`: drops a final `=` and the white space after it. */
  function StripFinalEquals(s: string): (r: string)
    ensures r <= s
    ensures r != s ==> |r| < |s| && s[|r|] == '=' && AllSpace(s[|r| + 1..])
    ensures r == s ==> !EndsWith(TrimEnd(s), "=")
  {
    var e := TrimEnd(s);
    if EndsWith(e, "=") then
      var r := e[..|e| - 1];
      assert e[|e| - 1..] == "=";
      assert s[|r|] == e[|e| - 1];
      assert s[|r| + 1..] == s[|e|..];
      r
    else s
  }

  // ---------------------------------------------------------------------------
  // Character substitutions

  /** `s.replace(/c/g, rep)`. */
  function Subst(s: string, c: char, rep: string): (r: string)
    ensures c !in rep ==> c !in r
    ensures c !in s ==> r == s
    ensures rep != [] ==> |s| <= |r|
  {
    if s == [] then []
    else (if s[0] == c then rep else [s[0]]) + Subst(s[1..], c, rep)
  }

  /** Every character of the result comes from the text or from the replacement. */
  lemma {:induction false} SubstChars(s: string, c: char, rep: string)
    ensures forall x :: x in Subst(s, c, rep) ==> (x in s && x != c) || x in rep
    decreases |s|
  {
    if s != [] {
      SubstChars(s[1..], c, rep);
      assert forall x :: x in s[1..] ==> x in s;
    }
  }

  /** A substitution acts on each part of a text separately. */
  lemma {:induction false} SubstConcat(a: string, b: string, c: char, rep: string)
    ensures Subst(a + b, c, rep) == Subst(a, c, rep) + Subst(b, c, rep)
    decreases |a|
  {
    if a == [] {
      assert a + b == b;
    } else {
      assert (a + b)[1..] == a[1..] + b;
      assert (a + b)[0] == a[0];
      SubstConcat(a[1..], b, c, rep);
    }
  }

  /** Replacing in a text is replacing in its first character, then in the rest. */
  lemma SubstCons(ch: char, rest: string, c: char, rep: string)
    ensures Subst([ch] + rest, c, rep) == (if ch == c then rep else [ch]) + Subst(rest, c, rep)
  {
    assert ([ch] + rest)[1..] == rest;
  }

  // ---------------------------------------------------------------------------
  // Regular-expression rewrites

  /** The three remaining global rewrites: `name\s*\(([^)]*)\)` into `open + $1 + close`
      (for `sin`, `cos`, `tan`), `√\(([^)]+)\)` into `Math.sqrt($1)`, and `\(([^)]+)\)²`
      into `($1)**2`. */
  datatype Rule = Call(name: string, open: string, close: string) | SquareRoot | Square

  /** A match at the start of the text: how many characters it covers and what replaces them. */
  datatype Match = Match(length: nat, replacement: string)

  /** Whether the rule matches at the start of `s`, as a backtracking engine decides it: the
      argument always runs to the first `)`. */
  function MatchAt(rule: Rule, s: string): (m: Option<Match>)
    ensures m.Some? ==> 0 < m.value.length <= |s|
  {
    match rule
    case Call(name, open, close) =>
      if !StartsWith(s, name) then None
      else
        var rest := TrimStart(s[|name|..]);
        var j := |s| - |rest|;
        if rest == [] || rest[0] != '(' then None
        else
          var q := IndexOf(rest[1..], ')');
          if q < 0 then None
          else Some(Match(j + q + 2, open + rest[1..1 + q] + close))
    case SquareRoot =>
      if !StartsWith(s, "√(") then None
      else
        var q := IndexOf(s[2..], ')');
        if q < 1 then None
        else Some(Match(q + 3, "Math.sqrt(" + s[2..2 + q] + ")"))
    case Square =>
      if !StartsWith(s, "(") then None
      else
        var q := IndexOf(s[1..], ')');
        if q < 1 || q + 2 >= |s| || s[q + 2] != '²' then None
        else Some(Match(q + 3, "(" + s[1..1 + q] + ")**2"))
  }

  /** `s.replace(regex, …)` with the `g` flag: left to right, each match replaced, scanning
      on after it. */
  function Rewrite(rule: Rule, s: string): string
    decreases |s|
  {
    if s == [] then []
    else match MatchAt(rule, s)
      case Some(m) => m.replacement + Rewrite(rule, s[m.length..])
      case None => [s[0]] + Rewrite(rule, s[1..])
  }

  /** Where the rule matches nowhere, the text is left as it is. */
  lemma {:induction false} RewriteNoMatch(rule: Rule, s: string)
    requires forall i :: 0 <= i < |s| ==> MatchAt(rule, s[i..]).None?
    ensures Rewrite(rule, s) == s
    decreases |s|
  {
    if s != [] {
      assert s[0..] == s;
      forall i | 0 <= i < |s| - 1 ensures MatchAt(rule, s[1..][i..]).None? {
        assert s[1..][i..] == s[i + 1..];
      }
      RewriteNoMatch(rule, s[1..]);
    }
  }

  /** The first `c` of a text is the one after a stretch without `c`. */
  lemma IndexOfFirst(x: string, c: char, tail: string)
    requires c !in x
    ensures IndexOf(x + [c] + tail, c) == |x|
  {
    var s := x + [c] + tail;
    assert s[|x|] == c;
    assert forall k :: 0 <= k < |x| ==> s[k] == x[k];
  }

  lemma MatchCall(name: string, open: string, close: string, x: string, rest: string)
    requires ')' !in x
    ensures MatchAt(Call(name, open, close), name + "(" + x + ")" + rest)
         == Some(Match(|name| + |x| + 2, open + x + close))
  {
    var s := name + "(" + x + ")" + rest;
    var after := "(" + x + ")" + rest;
    CallPieces(name, x, rest);
    assert TrimStart(after) == after;
    IndexOfFirst(x, ')', rest);
  }

  /** How a written call splits into its name, its `(`, its argument and the rest. */
  lemma CallPieces(name: string, x: string, rest: string)
    ensures var s := name + "(" + x + ")" + rest;
      var after := "(" + x + ")" + rest;
      && StartsWith(s, name) && s[|name|..] == after && |s| - |after| == |name|
      && after != [] && after[0] == '('
      && after[1..] == x + [')'] + rest && after[1..1 + |x|] == x
  {
    var s := name + "(" + x + ")" + rest;
    assert s[..|name|] == name;
  }

  /** A call whose argument holds no `)` is rewritten whole, and the scan goes on after it. */
  lemma RewriteCall(name: string, open: string, close: string, x: string, rest: string)
    requires ')' !in x
    ensures Rewrite(Call(name, open, close), name + "(" + x + ")" + rest)
         == open + x + close + Rewrite(Call(name, open, close), rest)
  {
    var s := name + "(" + x + ")" + rest;
    MatchCall(name, open, close, x, rest);
    assert s[|name| + |x| + 2..] == rest;
  }

  lemma MatchSquareRoot(x: string, rest: string)
    requires x != [] && ')' !in x
    ensures MatchAt(SquareRoot, "√(" + x + ")" + rest) == Some(Match(|x| + 3, "Math.sqrt(" + x + ")"))
  {
    var s := "√(" + x + ")" + rest;
    assert s[2..] == x + [')'] + rest;
    IndexOfFirst(x, ')', rest);
    assert s[2..2 + |x|] == x;
  }

  /** `√(x)` with a non-empty `x` without `)` becomes `Math.sqrt(x)`. */
  lemma RewriteSquareRoot(x: string, rest: string)
    requires x != [] && ')' !in x
    ensures Rewrite(SquareRoot, "√(" + x + ")" + rest) == "Math.sqrt(" + x + ")" + Rewrite(SquareRoot, rest)
  {
    var s := "√(" + x + ")" + rest;
    MatchSquareRoot(x, rest);
    assert s[|x| + 3..] == rest;
  }

  lemma MatchSquare(x: string, rest: string)
    requires x != [] && ')' !in x
    ensures MatchAt(Square, "(" + x + ")²" + rest) == Some(Match(|x| + 3, "(" + x + ")**2"))
  {
    var s := "(" + x + ")²" + rest;
    assert s[1..] == x + [')'] + ("²" + rest);
    IndexOfFirst(x, ')', "²" + rest);
    assert s[|x| + 2] == '²';
    assert s[1..1 + |x|] == x;
  }

  /** `(x)²` with a non-empty `x` without `)` becomes `(x)**2`. */
  lemma RewriteSquare(x: string, rest: string)
    requires x != [] && ')' !in x
    ensures Rewrite(Square, "(" + x + ")²" + rest) == "(" + x + ")**2" + Rewrite(Square, rest)
  {
    var s := "(" + x + ")²" + rest;
    MatchSquare(x, rest);
    assert s[|x| + 3..] == rest;
  }

  /** Each rule needs a character of its own to match: the first letter of the function
      name, `√`, or `²`. */
  lemma MatchNeeds(rule: Rule, s: string)
    ensures MatchAt(rule, s).Some? && rule.Call? ==> rule.name == [] || (s != [] && s[0] == rule.name[0])
    ensures MatchAt(rule, s).Some? && rule.SquareRoot? ==> s != [] && s[0] == '√'
    ensures MatchAt(rule, s).Some? && rule.Square? ==> '²' in s
  {
    if MatchAt(rule, s).Some? && rule.Square? {
      var q := IndexOf(s[1..], ')');
      assert s[q + 2] == '²';
    }
  }

  const SinRule := Call("sin", "Math.sin((", ") * Math.PI / 180)")
  const CosRule := Call("cos", "Math.cos((", ") * Math.PI / 180)")
  const TanRule := Call("tan", "Math.tan((", ") * Math.PI / 180)")

  /** The first steps of `normalizeExpression`: a final `=` dropped, then the ends trimmed. */
  function Prepare(s: string): string {
    Trim(StripFinalEquals(s))
  }

  /** The display operators replaced by JavaScript's: `×` by `*`, `÷` by `/`, `^` by `**`. */
  function Operators(t: string): string {
    Subst(Subst(Subst(t, '×', "*"), '÷', "/"), '^', "**")
  }

  /** The trigonometric calls rewritten to take degrees. */
  function Angles(v: string): string {
    Rewrite(TanRule, Rewrite(CosRule, Rewrite(SinRule, v)))
  }

  /** Square roots and squares rewritten. */
  function Powers(w: string): string {
    Rewrite(Square, Rewrite(SquareRoot, w))
  }

  /** `normalizeExpression`. (Its `1/(` to `1/(` replacement changes nothing and is omitted.) */
  function Normalize(s: string): string {
    if s == [] then [] else Powers(Angles(Operators(Prepare(s))))
  }

  /** The characters of plain arithmetic as the keypad enters it. */
  predicate IsArithmeticChar(c: char) {
    ('0' <= c <= '9') || c in ".+-*/%() "
  }

  predicate IsArithmetic(s: string) {
    forall i :: 0 <= i < |s| ==> IsArithmeticChar(s[i])
  }

  /** Arithmetic as the keypad writes it, with the display operators `×`, `÷` and `^`. */
  predicate IsKeypadArithmetic(s: string) {
    forall i :: 0 <= i < |s| ==> IsArithmeticChar(s[i]) || s[i] in "×÷^"
  }

  /** None of the rewrite rules matches at the start of plain arithmetic. */
  lemma NoMatchInArithmetic(rule: Rule, s: string)
    requires rule in {SinRule, CosRule, TanRule, SquareRoot, Square}
    requires IsArithmetic(s)
    ensures MatchAt(rule, s).None?
  {
    MatchNeeds(rule, s);
    assert s != [] ==> IsArithmeticChar(s[0]);
    assert '²' !in s by {
      assert forall i :: 0 <= i < |s| ==> s[i] != '²';
    }
  }

  /** None of the rewrite rules changes plain arithmetic. */
  lemma NoRuleMatches(rule: Rule, s: string)
    requires rule in {SinRule, CosRule, TanRule, SquareRoot, Square}
    requires IsArithmetic(s)
    ensures Rewrite(rule, s) == s
  {
    forall i | 0 <= i < |s| ensures MatchAt(rule, s[i..]).None? {
      assert forall k :: 0 <= k < |s[i..]| ==> s[i..][k] == s[i + k];
      NoMatchInArithmetic(rule, s[i..]);
    }
    RewriteNoMatch(rule, s);
  }

  /** The rewrite stages leave plain arithmetic as it is. */
  lemma RewritesKeepArithmetic(v: string)
    requires IsArithmetic(v)
    ensures Powers(Angles(v)) == v
  {
    NoRuleMatches(SinRule, v);
    NoRuleMatches(CosRule, v);
    NoRuleMatches(TanRule, v);
    NoRuleMatches(SquareRoot, v);
    NoRuleMatches(Square, v);
  }

  /** After the operator substitution, arithmetic written with `×`, `÷` and `^` is plain. */
  lemma OperatorsGiveArithmetic(s: string)
    requires IsKeypadArithmetic(s)
    ensures IsArithmetic(Operators(s))
  {
    var v := Operators(s);
    SubstChars(s, '×', "*");
    SubstChars(Subst(s, '×', "*"), '÷', "/");
    SubstChars(Subst(Subst(s, '×', "*"), '÷', "/"), '^', "**");
    assert forall x :: x in s ==> IsArithmeticChar(x) || x in "×÷^" by {
      forall x | x in s ensures IsArithmeticChar(x) || x in "×÷^" {
        var i :| 0 <= i < |s| && s[i] == x;
      }
    }
    forall i | 0 <= i < |v| ensures IsArithmeticChar(v[i]) {
      assert v[i] in v;
    }
  }

  /** A trimmed text without a final `=` passes the first steps unchanged. */
  lemma PrepareTrimmed(s: string)
    requires s != [] && !IsSpace(s[0]) && !IsSpace(s[|s| - 1]) && s[|s| - 1] != '='
    ensures Prepare(s) == s
  {
    assert TrimEnd(s) == s;
    assert StripFinalEquals(s) == s;
    TrimOfTrimmed(s);
  }

  /** Plain arithmetic written with the display operators `×`, `÷` and `^` only has those
      operators replaced by `*`, `/` and `**`. */
  lemma NormalizeArithmetic(s: string)
    requires IsKeypadArithmetic(s)
    requires s == [] || (!IsSpace(s[0]) && !IsSpace(s[|s| - 1]))
    ensures Normalize(s) == Operators(s)
  {
    if s != [] {
      assert s[|s| - 1] != '=' by {
        assert IsArithmeticChar(s[|s| - 1]) || s[|s| - 1] in "×÷^";
      }
      PrepareTrimmed(s);
      OperatorsGiveArithmetic(s);
      RewritesKeepArithmetic(Operators(s));
    }
  }

  /** The operator substitution acts on each part of a text separately. */
  lemma OperatorsConcat(a: string, b: string)
    ensures Operators(a + b) == Operators(a) + Operators(b)
  {
    SubstConcat(a, b, '×', "*");
    SubstConcat(Subst(a, '×', "*"), Subst(b, '×', "*"), '÷', "/");
    SubstConcat(Subst(Subst(a, '×', "*"), '÷', "/"), Subst(Subst(b, '×', "*"), '÷', "/"), '^', "**");
  }

  /** The operator substitution rewrites exactly the three display operators. */
  lemma OperatorsOfChar(c: char)
    ensures Operators([c]) == if c == '×' then "*" else if c == '÷' then "/" else if c == '^' then "**" else [c]
  {
    SubstCons(c, [], '×', "*");
    var t1 := Subst([c], '×', "*");
    assert t1 == if c == '×' then "*" else [c];
    if c == '×' {
      assert Subst("*", '÷', "/") == "*" && Subst("*", '^', "**") == "*";
    } else if c == '÷' {
      SubstCons(c, [], '÷', "/");
      assert Subst("/", '^', "**") == "/";
    } else {
      SubstCons(c, [], '÷', "/");
      SubstCons(c, [], '^', "**");
    }
  }

  // ---------------------------------------------------------------------------
  // The whole of `normalizeExpression` on a call, a square root and a square

  /** Whether a rewrite passes over `a` (followed by `b`) without a match: `a` lacks the
      character the rule must start with, or, for a square, neither part holds `²`. */
  predicate Skips(rule: Rule, a: string, b: string) {
    match rule
    case Call(name, _, _) => name != [] && name[0] !in a
    case SquareRoot => '√' !in a
    case Square => '²' !in a + b
  }

  /** A stretch the rule cannot match in is copied, and the scan goes on after it. */
  lemma {:induction false} RewriteSkips(rule: Rule, a: string, b: string)
    requires Skips(rule, a, b)
    ensures Rewrite(rule, a + b) == a + Rewrite(rule, b)
    decreases |a|
  {
    if a == [] {
      assert a + b == b;
    } else {
      var rest := a[1..] + b;
      assert a + b == [a[0]] + rest;
      assert MatchAt(rule, [a[0]] + rest).None? by {
        assert a[0] in a;
        MatchNeeds(rule, [a[0]] + rest);
      }
      RewriteStep(rule, a[0], rest);
      assert Skips(rule, a[1..], b) by {
        assert forall ch :: ch in a[1..] ==> ch in a;
      }
      RewriteSkips(rule, a[1..], b);
      ConsAppend(a, Rewrite(rule, b));
    }
  }

  lemma ConsAppend(a: string, r: string)
    requires a != []
    ensures [a[0]] + (a[1..] + r) == a + r
  {
    assert a == [a[0]] + a[1..];
  }

  /** One character where the rule does not match is copied. */
  lemma RewriteStep(rule: Rule, c: char, b: string)
    requires MatchAt(rule, [c] + b).None?
    ensures Rewrite(rule, [c] + b) == [c] + Rewrite(rule, b)
  {
    assert ([c] + b)[1..] == b;
  }

  /** Plain arithmetic holds none of the characters the rules look for. */
  lemma ArithmeticLacks(y: string, c: char)
    requires IsArithmetic(y) && !IsArithmeticChar(c)
    ensures c !in y
  {
  }

  /** The operator substitution turns keypad arithmetic without `)` into plain arithmetic
      without `)`, and keeps it non-empty. */
  lemma OperatorsOfKeypad(x: string)
    requires IsKeypadArithmetic(x) && ')' !in x
    ensures IsArithmetic(Operators(x)) && ')' !in Operators(x)
    ensures x != [] ==> Operators(x) != []
  {
    OperatorsGiveArithmetic(x);
    var t1 := Subst(x, '×', "*");
    var t2 := Subst(t1, '÷', "/");
    SubstChars(x, '×', "*");
    SubstChars(t1, '÷', "/");
    SubstChars(t2, '^', "**");
  }

  /** The first steps on a keypad text between two fixed parts without display operators. */
  lemma PrepareAround(pre: string, x: string, post: string)
    requires pre != [] && !IsSpace(pre[0])
    requires post != [] && !IsSpace(post[|post| - 1]) && post[|post| - 1] != '='
    requires '×' !in pre + post && '÷' !in pre + post && '^' !in pre + post
    ensures Operators(Prepare(pre + x + post)) == pre + Operators(x) + post
  {
    var s := pre + x + post;
    assert s[0] == pre[0] && s[|s| - 1] == post[|post| - 1];
    PrepareTrimmed(s);
    OperatorsConcat(pre + x, post);
    OperatorsConcat(pre, x);
  }

  /** A call rule does not match where the second letter of its name is missing. */
  lemma RewritePassesLetter(rule: Rule, c: char, b: string)
    requires rule.Call? && |rule.name| >= 2 && (b == [] || b[0] != rule.name[1])
    ensures Rewrite(rule, [c] + b) == [c] + Rewrite(rule, b)
  {
    var s := [c] + b;
    assert s[1..] == b;
    assert !StartsWith(s, rule.name);
  }

  /** With neither `√` nor `²` present, the power rewrites change nothing. */
  lemma PowersKeep(o: string)
    requires '√' !in o && '²' !in o
    ensures Powers(o) == o
  {
    assert o + [] == o;
    RewriteSkips(SquareRoot, o, []);
    RewriteSkips(Square, o, []);
  }

  /** `tan` passes over a `t` not followed by `a`: the output of the `sin` and `cos`
      rewrites has two, one in each `Math`. */
  lemma TanPassesTwice(pre: string, mid: string, tail: string)
    requires 't' !in pre && 't' !in mid && 't' !in tail
    requires mid != [] && mid[0] != 'a' && tail != [] && tail[0] != 'a'
    ensures var o := pre + ("t" + (mid + ("t" + tail)));
      Rewrite(TanRule, o) == o
  {
    assert Rewrite(TanRule, tail) == tail by {
      assert tail + [] == tail;
      RewriteSkips(TanRule, tail, []);
    }
    RewritePassesLetter(TanRule, 't', tail);
    RewriteSkips(TanRule, mid, "t" + tail);
    RewritePassesLetter(TanRule, 't', mid + ("t" + tail));
    RewriteSkips(TanRule, pre, "t" + (mid + ("t" + tail)));
  }

  /** The two `t`s of a text, as `TanPassesTwice` takes them. */
  lemma Regroup(a: string, b: string, y: string, c: string, d: string)
    ensures (a + ("t" + b)) + y + (c + ("t" + d)) == a + ("t" + ((b + y + c) + ("t" + d)))
  {
  }

  /** The text the `sin` and `cos` rewrites leave is kept by the `tan` rewrite. */
  lemma TanKeepsAngle(open: string, y: string)
    requires open in {"Math.sin((", "Math.cos(("} && IsArithmetic(y)
    ensures Rewrite(TanRule, open + y + ") * Math.PI / 180)") == open + y + ") * Math.PI / 180)"
  {
    var tail := "h.PI / 180)";
    assert ") * Math.PI / 180)" == ") * Ma" + ("t" + tail);
    assert open == "Ma" + ("t" + open[3..]);
    assert 't' !in open[3..] + y + ") * Ma" by {
      ArithmeticLacks(y, 't');
    }
    Regroup("Ma", open[3..], y, ") * Ma", tail);
    TanPassesTwice("Ma", open[3..] + y + ") * Ma", tail);
  }

  /** The text the `sin` rewrite leaves is kept by the `cos` rewrite. */
  lemma CosKeepsSine(y: string)
    requires IsArithmetic(y)
    ensures Rewrite(CosRule, "Math.sin((" + y + ") * Math.PI / 180)") == "Math.sin((" + y + ") * Math.PI / 180)"
  {
    var o := "Math.sin((" + y + ") * Math.PI / 180)";
    assert 'c' !in o by {
      ArithmeticLacks(y, 'c');
    }
    assert o + [] == o;
    RewriteSkips(CosRule, o, []);
  }

  /** The text a trigonometric rewrite leaves is kept by the power rewrites. */
  lemma PowersKeepAngle(open: string, y: string)
    requires open in {"Math.sin((", "Math.cos((", "Math.tan(("} && IsArithmetic(y)
    ensures Powers(open + y + ") * Math.PI / 180)") == open + y + ") * Math.PI / 180)"
  {
    var o := open + y + ") * Math.PI / 180)";
    assert '√' !in o && '²' !in o by {
      ArithmeticLacks(y, '√');
      ArithmeticLacks(y, '²');
    }
    PowersKeep(o);
  }

  /** A call rewritten whole, with nothing after it; `head` is the name with its `(`. */
  lemma RewriteWholeCall(name: string, head: string, open: string, close: string, y: string)
    requires head == name + "(" && ')' !in y
    ensures Rewrite(Call(name, open, close), head + y + ")") == open + y + close
  {
    assert head + y + ")" == name + "(" + y + ")" + [];
    RewriteCall(name, open, close, y, []);
  }

  /** The steps of `normalizeExpression`, one after another. */
  lemma NormalizeSteps(s: string, p: string, a: string, o: string)
    requires s != [] && Operators(Prepare(s)) == p && Angles(p) == a && Powers(a) == o
    ensures Normalize(s) == o
  {
  }

  /** The `sin` stage turns `sin(y)` into the sine in degrees, which the rest keep. */
  lemma AnglesOfSine(y: string)
    requires IsArithmetic(y) && ')' !in y
    ensures Angles("sin(" + y + ")") == "Math.sin((" + y + ") * Math.PI / 180)"
  {
    var o := "Math.sin((" + y + ") * Math.PI / 180)";
    assert Rewrite(SinRule, "sin(" + y + ")") == o by {
      RewriteWholeCall("sin", "sin(", "Math.sin((", ") * Math.PI / 180)", y);
    }
    CosKeepsSine(y);
    TanKeepsAngle("Math.sin((", y);
  }

  /** `sin(x)`, with keypad arithmetic `x` without `)`, becomes the JavaScript sine of `x`
      converted from degrees, and the later rewrites leave it alone. */
  lemma NormalizeSin(x: string)
    requires IsKeypadArithmetic(x) && ')' !in x
    ensures Normalize("sin(" + x + ")") == "Math.sin((" + Operators(x) + ") * Math.PI / 180)"
  {
    var y := Operators(x);
    OperatorsOfKeypad(x);
    PrepareAround("sin(", x, ")");
    AnglesOfSine(y);
    PowersKeepAngle("Math.sin((", y);
    NormalizeSteps("sin(" + x + ")", "sin(" + y + ")", "Math.sin((" + y + ") * Math.PI / 180)",
                   "Math.sin((" + y + ") * Math.PI / 180)");
  }

  /** The `sin` rewrite passes over `cos(y)`: its only `s` is followed by `(`. */
  lemma SineKeepsCosine(y: string)
    requires IsArithmetic(y)
    ensures Rewrite(SinRule, "cos(" + y + ")") == "cos(" + y + ")"
  {
    var after := "(" + y + ")";
    assert 's' !in after by {
      ArithmeticLacks(y, 's');
    }
    assert Rewrite(SinRule, after) == after by {
      assert after + [] == after;
      RewriteSkips(SinRule, after, []);
    }
    RewritePassesLetter(SinRule, 's', after);
    assert "cos(" + y + ")" == "co" + ("s" + after);
    RewriteSkips(SinRule, "co", "s" + after);
  }

  /** The `cos` stage turns `cos(y)` into the cosine in degrees, which the rest keep. */
  lemma AnglesOfCosine(y: string)
    requires IsArithmetic(y) && ')' !in y
    ensures Angles("cos(" + y + ")") == "Math.cos((" + y + ") * Math.PI / 180)"
  {
    SineKeepsCosine(y);
    assert Rewrite(CosRule, "cos(" + y + ")") == "Math.cos((" + y + ") * Math.PI / 180)" by {
      RewriteWholeCall("cos", "cos(", "Math.cos((", ") * Math.PI / 180)", y);
    }
    TanKeepsAngle("Math.cos((", y);
  }

  /** `cos(x)`, with keypad arithmetic `x` without `)`, becomes the JavaScript cosine of `x`
      converted from degrees, and the other rewrites leave it alone. */
  lemma NormalizeCos(x: string)
    requires IsKeypadArithmetic(x) && ')' !in x
    ensures Normalize("cos(" + x + ")") == "Math.cos((" + Operators(x) + ") * Math.PI / 180)"
  {
    var y := Operators(x);
    OperatorsOfKeypad(x);
    PrepareAround("cos(", x, ")");
    AnglesOfCosine(y);
    PowersKeepAngle("Math.cos((", y);
    NormalizeSteps("cos(" + x + ")", "cos(" + y + ")", "Math.cos((" + y + ") * Math.PI / 180)",
                   "Math.cos((" + y + ") * Math.PI / 180)");
  }

  /** The `tan` stage turns `tan(y)` into the tangent in degrees; the earlier stages find no
      `s` or `c` in it. */
  lemma AnglesOfTangent(y: string)
    requires IsArithmetic(y) && ')' !in y
    ensures Angles("tan(" + y + ")") == "Math.tan((" + y + ") * Math.PI / 180)"
  {
    var call := "tan(" + y + ")";
    assert 's' !in call && 'c' !in call by {
      ArithmeticLacks(y, 's');
      ArithmeticLacks(y, 'c');
    }
    RewritesKeepWithout(call);
    RewriteWholeCall("tan", "tan(", "Math.tan((", ") * Math.PI / 180)", y);
  }

  /** A text without `s` and `c` gives the `sin` and `cos` rewrites nothing to do. */
  lemma RewritesKeepWithout(v: string)
    requires 's' !in v && 'c' !in v
    ensures Rewrite(SinRule, v) == v && Rewrite(CosRule, v) == v
  {
    assert v + [] == v;
    RewriteSkips(SinRule, v, []);
    RewriteSkips(CosRule, v, []);
  }

  /** `tan(x)`, with keypad arithmetic `x` without `)`, becomes the JavaScript tangent of `x`
      converted from degrees, and the other rewrites leave it alone. */
  lemma NormalizeTan(x: string)
    requires IsKeypadArithmetic(x) && ')' !in x
    ensures Normalize("tan(" + x + ")") == "Math.tan((" + Operators(x) + ") * Math.PI / 180)"
  {
    var y := Operators(x);
    OperatorsOfKeypad(x);
    PrepareAround("tan(", x, ")");
    AnglesOfTangent(y);
    PowersKeepAngle("Math.tan((", y);
    NormalizeSteps("tan(" + x + ")", "tan(" + y + ")", "Math.tan((" + y + ") * Math.PI / 180)",
                   "Math.tan((" + y + ") * Math.PI / 180)");
  }

  /** A text without `s`, `c` and `t` gives the trigonometric stages nothing to rewrite. */
  lemma AnglesKeep(v: string)
    requires 's' !in v && 'c' !in v && 't' !in v
    ensures Angles(v) == v
  {
    assert v + [] == v;
    RewriteSkips(SinRule, v, []);
    RewriteSkips(CosRule, v, []);
    RewriteSkips(TanRule, v, []);
  }

  /** The trigonometric stages leave `√(y)` alone. */
  lemma AnglesOfSquareRoot(y: string)
    requires IsArithmetic(y)
    ensures Angles("√(" + y + ")") == "√(" + y + ")"
  {
    ArithmeticLacks(y, 's');
    ArithmeticLacks(y, 'c');
    ArithmeticLacks(y, 't');
    AnglesKeep("√(" + y + ")");
  }

  /** The power stages turn `√(y)` into `Math.sqrt(y)`. */
  lemma PowersOfSquareRoot(y: string)
    requires IsArithmetic(y) && ')' !in y && y != []
    ensures Powers("√(" + y + ")") == "Math.sqrt(" + y + ")"
  {
    var o := "Math.sqrt(" + y + ")";
    assert Rewrite(SquareRoot, "√(" + y + ")") == o by {
      assert "√(" + y + ")" == "√(" + y + ")" + [];
      RewriteSquareRoot(y, []);
    }
    assert '²' !in o by {
      ArithmeticLacks(y, '²');
    }
    assert o + [] == o;
    RewriteSkips(Square, o, []);
  }

  /** `√(x)`, with non-empty keypad arithmetic `x` without `)`, becomes `Math.sqrt(x)`. */
  lemma NormalizeSquareRoot(x: string)
    requires IsKeypadArithmetic(x) && ')' !in x && x != []
    ensures Normalize("√(" + x + ")") == "Math.sqrt(" + Operators(x) + ")"
  {
    var y := Operators(x);
    OperatorsOfKeypad(x);
    PrepareAround("√(", x, ")");
    AnglesOfSquareRoot(y);
    PowersOfSquareRoot(y);
    NormalizeSteps("√(" + x + ")", "√(" + y + ")", "√(" + y + ")", "Math.sqrt(" + y + ")");
  }

  /** The trigonometric stages leave `(y)²` alone. */
  lemma AnglesOfSquare(y: string)
    requires IsArithmetic(y)
    ensures Angles("(" + y + ")²") == "(" + y + ")²"
  {
    ArithmeticLacks(y, 's');
    ArithmeticLacks(y, 'c');
    ArithmeticLacks(y, 't');
    AnglesKeep("(" + y + ")²");
  }

  /** The power stages turn `(y)²` into `(y)**2`. */
  lemma PowersOfSquare(y: string)
    requires IsArithmetic(y) && ')' !in y && y != []
    ensures Powers("(" + y + ")²") == "(" + y + ")**2"
  {
    var sq := "(" + y + ")²";
    assert Rewrite(SquareRoot, sq) == sq by {
      ArithmeticLacks(y, '√');
      assert sq + [] == sq;
      RewriteSkips(SquareRoot, sq, []);
    }
    assert sq == "(" + y + ")²" + [];
    RewriteSquare(y, []);
  }

  /** `(x)²`, with non-empty keypad arithmetic `x` without `)`, becomes `(x)**2`. */
  lemma NormalizeSquare(x: string)
    requires IsKeypadArithmetic(x) && ')' !in x && x != []
    ensures Normalize("(" + x + ")²") == "(" + Operators(x) + ")**2"
  {
    var y := Operators(x);
    OperatorsOfKeypad(x);
    PrepareAround("(", x, ")²");
    AnglesOfSquare(y);
    PowersOfSquare(y);
    NormalizeSteps("(" + x + ")²", "(" + y + ")²", "(" + y + ")²", "(" + y + ")**2");
  }
}
