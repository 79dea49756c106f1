/**
  The scientific calculator's entry state machine: the token being typed, the expression
  built so far, the operands and pending operator, and whether the last key finished a
  calculation. Each key handler is a method of `State`; what it does is given by a function
  on a `Snapshot` of the five fields, and the lemmas below state what those functions
  promise.
 */
module Calculator {
  import opened Wrappers
  import opened JsText
  import opened SignToggle
  import opened Evaluator
  import opened Normalizer

  /** The five fields: `currentInput`, `expressionText`, `previousInput`,
      `currentOperation` and `window.calculationComplete`. */
  datatype Snapshot = Snapshot(
    currentInput: string,
    expressionText: string,
    previousInput: string,
    currentOperation: Option<string>,
    complete: bool)

  /** The state after `clear`, which is also the state the page starts in. */
  const Cleared := Snapshot("", "", "", None, false)

  // ---------------------------------------------------------------------------
  // Editing keys

  /** `backspace`. */
  function Backspaced(s: Snapshot): Snapshot {
    if s.currentInput != [] then s.(currentInput := DropLast(s.currentInput))
    else if s.expressionText != [] then s.(expressionText := DropLast(TrimEnd(s.expressionText)))
    else s
  }

  /** The first step of every entry key: after a finished calculation, start over. */
  function Fresh(s: Snapshot): Snapshot {
    if s.complete then Cleared else s
  }

  /** `appendParenthesis`, `appendFunction`, `appendCaret` and the plain branch of
      `appendNumber`: start over if needed, then add `text` to the token. */
  function Typed(s: Snapshot, text: string): Snapshot {
    var t := Fresh(s);
    t.(currentInput := t.currentInput + text)
  }

  /** `appendNumber`. The `+/-` key toggles the exponent after the last `^`, or else the sign
      of the last number; `flip` is the `parseFloat` branch of the exponent toggle. */
  function Appended(s: Snapshot, key: string, flip: string -> string): Snapshot {
    var t := Fresh(s);
    if key == "." && '.' in t.currentInput then t
    else if key == "+/-" then
      if '^' in t.currentInput then t.(currentInput := ToggleExponent(t.currentInput, flip))
      else t.(currentInput := ToggleSign(t.currentInput))
    else Typed(s, key)
  }

  // ---------------------------------------------------------------------------
  // Operators

  /** The text ends in one of `+ - × ÷ * / % ^` and then one white-space character. */
  predicate EndsWithOperator(e: string) {
    |e| >= 2 && e[|e| - 2] in "+-×÷*/%^" && IsSpace(e[|e| - 1])
  }

  /** `handleOperator(op, display)`. */
  function Operated(s: Snapshot, op: string, display: string): Snapshot {
    if s.complete then
      Snapshot([], s.currentInput + " " + display + " ", s.currentInput, Some(op), false)
    else if s.currentInput != [] then
      Snapshot([], s.expressionText + s.currentInput + " " + display + " ", [], Some(op), false)
    else if EndsWithOperator(s.expressionText) then
      var e := s.expressionText;
      s.(expressionText := e[..|e| - 2] + display + " ", currentOperation := Some(op))
    else s
  }

  // ---------------------------------------------------------------------------
  // Evaluation

  /** `calculate`: evaluate the expression and the token; on success show the value and the
      expression with a single ` = ` at its end. */
  function Calculated(s: Snapshot, num: Numerics): Snapshot {
    var raw := s.expressionText + s.currentInput;
    match TryEval(Normalize(raw), num)
    case None => s
    case Some(v) => Snapshot(Show(num, v), SanitizeEquals(raw) + " = ", [], None, true)
  }

  /** `value.toString()`. */
  function Show(num: Numerics, v: real): string {
    num.show(v)
  }

  /** The three post-fix keys. */
  datatype Postfix = Root | Sq | Inverse

  /** What a post-fix key leaves: the new state and whether the handler writes `ERROR` to the
      result field. */
  datatype Outcome = Outcome(next: Snapshot, error: bool)

  /** The operand of a post-fix key: the expression and the token, or the token alone when
      that text is blank. */
  function Operand(s: Snapshot): string {
    var e := s.expressionText + s.currentInput;
    if AllSpace(e) && s.currentInput != [] then s.currentInput else e
  }

  /** The value a post-fix key computes from a value `v`, rounded by `roundNumber`. */
  function PostfixValue(key: Postfix, v: real, num: Numerics): real
    requires key == Inverse ==> v != 0.0
  {
    match key
    case Root => num.round(num.sqrt(v))
    case Sq => num.round(v * v)
    case Inverse => num.round(1.0 / v)
  }

  /** The expression line a post-fix key shows for the operand `e`. */
  function PostfixLabel(key: Postfix, e: string): string {
    match key
    case Root => "√(" + e + ") = "
    case Sq => "(" + e + ")² = "
    case Inverse => "1/(" + e + ") = "
  }

  /** A value the post-fix key refuses: a negative one for the square root, zero for the
      reciprocal. */
  predicate Refused(key: Postfix, v: real) {
    (key == Root && v < 0.0) || (key == Inverse && v == 0.0)
  }

  /** `calculateSquareRoot`, `calculateSquare` and `calculateReciprocal`. */
  function PostfixApplied(s: Snapshot, key: Postfix, num: Numerics): Outcome {
    var t := s.(complete := false);
    var e := Operand(s);
    if AllSpace(e) then Outcome(t, key == Inverse)
    else match TryEval(Normalize(e), num)
      case None => Outcome(t, true)
      case Some(v) =>
        if key == Root && v < 0.0 then
          Outcome(t.(expressionText := PostfixLabel(key, e), currentInput := [], previousInput := [],
                     currentOperation := None), true)
        else if Refused(key, v) then Outcome(t, true)
        else
          Outcome(Snapshot(Show(num, PostfixValue(key, v, num)), PostfixLabel(key, e), [], None, true),
                  false)
  }

  // ---------------------------------------------------------------------------
  // What the key handlers promise

  /** `backspace` removes the last character of a non-empty token and touches nothing else;
      with an empty token it removes the trailing white space and then one character of the
      expression; with both empty it does nothing. */
  lemma BackspaceEffect(s: Snapshot)
    ensures var r := Backspaced(s);
      s.currentInput != [] ==>
        r == s.(currentInput := r.currentInput) &&
        r.currentInput + [s.currentInput[|s.currentInput| - 1]] == s.currentInput
    ensures var r := Backspaced(s); var e := TrimEnd(s.expressionText);
      s.currentInput == [] && e != [] ==>
        r == s.(expressionText := r.expressionText) &&
        r.expressionText + [e[|e| - 1]] == e && AllSpace(s.expressionText[|e|..])
    ensures s.currentInput == [] && AllSpace(s.expressionText) ==>
      Backspaced(s) == s.(expressionText := [])
  {
    var e := TrimEnd(s.expressionText);
    assert AllSpace(s.expressionText) && e != [] ==> e[|e| - 1] == s.expressionText[|e| - 1];
  }

  /** Every entry key after a finished calculation acts as it would on a cleared calculator. */
  lemma EntryAfterResult(s: Snapshot, key: string, text: string, flip: string -> string)
    requires s.complete
    ensures Appended(s, key, flip) == Appended(Cleared, key, flip)
    ensures Typed(s, text) == Typed(Cleared, text)
    ensures Appended(s, "+/-", flip).currentInput == "-"
  {
  }

  /** `appendNumber` never leaves the completion flag set, ignores a second `.`, and appends
      any other key except `+/-`. */
  lemma AppendNumberEffect(s: Snapshot, key: string, flip: string -> string)
    ensures !Appended(s, key, flip).complete
    ensures key == "." && '.' in Fresh(s).currentInput ==> Appended(s, key, flip) == Fresh(s)
    ensures key != "+/-" && !(key == "." && '.' in Fresh(s).currentInput) ==>
      Appended(s, key, flip) == Fresh(s).(currentInput := Fresh(s).currentInput + key)
    ensures key == "+/-" ==>
      Appended(s, key, flip).currentInput ==
        (if '^' in Fresh(s).currentInput then ToggleExponent(Fresh(s).currentInput, flip)
         else ToggleSign(Fresh(s).currentInput))
  {
  }

  /** `backspace` undoes one typed character (after a finished calculation, it leaves the
      cleared calculator). */
  lemma BackspaceUndoesTyping(s: Snapshot, c: char)
    ensures Backspaced(Typed(s, [c])) == Fresh(s)
  {
    var t := Fresh(s);
    assert (t.currentInput + [c])[..|t.currentInput|] == t.currentInput;
  }

  /** The operator characters the expression can end with. */
  predicate IsOperatorChar(c: char) {
    c in "+-×÷*/%^"
  }

  /** `handleOperator` in its four cases: right after a result, the result becomes the first
      operand; a non-empty token is moved into the expression with the operator; with an
      empty token only a trailing operator is replaced; otherwise nothing changes. */
  lemma HandleOperatorEffect(s: Snapshot, op: string, display: string)
    ensures s.complete ==>
      Operated(s, op, display) == Snapshot([], s.currentInput + " " + display + " ", s.currentInput, Some(op), false)
    ensures !s.complete && s.currentInput != [] ==>
      var r := Operated(s, op, display);
      r.currentInput == [] && r.previousInput == [] && r.currentOperation == Some(op) && !r.complete &&
      r.expressionText == s.expressionText + s.currentInput + " " + display + " "
    ensures !s.complete && s.currentInput == [] && EndsWithOperator(s.expressionText) ==>
      var r := Operated(s, op, display); var e := s.expressionText;
      r == s.(expressionText := r.expressionText, currentOperation := Some(op)) &&
      r.expressionText[..|e| - 2] == e[..|e| - 2] && r.expressionText[|e| - 2..] == display + " "
    ensures !s.complete && s.currentInput == [] && !EndsWithOperator(s.expressionText) ==>
      Operated(s, op, display) == s
  {
    if !s.complete && s.currentInput == [] && EndsWithOperator(s.expressionText) {
      var e := s.expressionText;
      var r := Operated(s, op, display);
      assert r.expressionText == e[..|e| - 2] + (display + " ");
    }
  }

  /** Two operator keys in a row act as the second alone: the expression keeps one operator,
      the last one pressed. */
  lemma LastOperatorWins(s: Snapshot, op1: string, c: char, op2: string, display2: string)
    requires IsOperatorChar(c)
    requires s.complete || s.currentInput != [] || EndsWithOperator(s.expressionText)
    ensures Operated(Operated(s, op1, [c]), op2, display2) == Operated(s, op2, display2)
  {
    var r := Operated(s, op1, [c]);
    var e := r.expressionText;
    var base := if s.complete then s.currentInput + " "
      else if s.currentInput != [] then s.expressionText + s.currentInput + " "
      else s.expressionText[..|s.expressionText| - 2];
    assert e == base + [c] + " ";
    assert EndsWithOperator(e);
    assert e[..|e| - 2] == base;
    if !s.complete && s.currentInput == [] {
      var f := s.expressionText;
      assert Operated(s, op2, display2).expressionText == base + display2 + " ";
    }
  }

  /** `calculate` changes nothing when the evaluator fails. */
  lemma CalculateFailureKeepsState(s: Snapshot, num: Numerics)
    requires TryEval(Normalize(s.expressionText + s.currentInput), num).None?
    ensures Calculated(s, num) == s
  {
  }

  /** A non-empty text with unbalanced parentheses is refused before it is evaluated, so
      `calculate` changes nothing. */
  lemma CalculateUnbalanced(s: Snapshot, num: Numerics)
    requires Normalize(s.expressionText + s.currentInput) != []
    requires !Balanced(Normalize(s.expressionText + s.currentInput))
    ensures Calculated(s, num) == s
  {
  }

  /** After a successful `calculate`: the value is shown, the operation and the first operand
      are cleared, the flag is set, and the expression is the evaluated text without a
      trailing `=`, followed by one ` = `. */
  lemma CalculateSuccess(s: Snapshot, num: Numerics, v: real)
    requires TryEval(Normalize(s.expressionText + s.currentInput), num) == Some(v)
    ensures var r := Calculated(s, num); var raw := s.expressionText + s.currentInput;
      r.currentInput == Show(num, v) && r.currentOperation.None? && r.previousInput == [] && r.complete &&
      EndsWith(r.expressionText, " = ") &&
      var line := r.expressionText[..|r.expressionText| - 3];
      line <= raw && (line == raw || TrimStart(TrimEnd(raw[|line|..])) == "=") &&
      (line == raw <==> !EndsWith(TrimEnd(raw), "=")) &&
      (line != raw ==> line == [] || !IsSpace(line[|line| - 1]))
  {
    var r := Calculated(s, num);
    var raw := s.expressionText + s.currentInput;
    var line := SanitizeEquals(raw);
    assert r.expressionText == line + " = ";
    assert r.expressionText[..|r.expressionText| - 3] == line;
  }

  /** With nothing entered, `calculate` shows 0 (the evaluator's answer for the empty text). */
  lemma CalculateNothing(num: Numerics)
    ensures Calculated(Cleared, num) == Snapshot(Show(num, 0.0), " = ", [], None, true)
  {
    assert Cleared.expressionText + Cleared.currentInput == [];
  }

  /** The fallback to the token alone changes nothing: it is taken only when the whole text is
      blank, and then the token is blank as well. */
  lemma OperandIsWholeText(s: Snapshot)
    ensures AllSpace(Operand(s)) == AllSpace(s.expressionText + s.currentInput)
    ensures !AllSpace(s.expressionText + s.currentInput) ==> Operand(s) == s.expressionText + s.currentInput
  {
    var e := s.expressionText + s.currentInput;
    if AllSpace(e) && s.currentInput != [] {
      forall i | 0 <= i < |s.currentInput| ensures IsSpace(s.currentInput[i]) {
        assert s.currentInput[i] == e[|s.expressionText| + i];
      }
    }
  }

  /** A post-fix key on a blank text changes only the flag; only the reciprocal writes
      `ERROR`. */
  lemma PostfixBlank(s: Snapshot, key: Postfix, num: Numerics)
    requires AllSpace(s.expressionText + s.currentInput)
    ensures PostfixApplied(s, key, num) == Outcome(s.(complete := false), key == Inverse)
  {
    OperandIsWholeText(s);
  }

  /** When the evaluator fails, a post-fix key writes `ERROR` and changes only the flag. */
  lemma PostfixFailure(s: Snapshot, key: Postfix, num: Numerics)
    requires !AllSpace(s.expressionText + s.currentInput)
    requires TryEval(Normalize(s.expressionText + s.currentInput), num).None?
    ensures PostfixApplied(s, key, num) == Outcome(s.(complete := false), true)
  {
    OperandIsWholeText(s);
  }

  /** The square root of a negative value writes `ERROR`, keeps `√(expr) = ` as the expression
      and clears the token, the operand and the operation. */
  lemma SquareRootOfNegative(s: Snapshot, num: Numerics, v: real)
    requires !AllSpace(s.expressionText + s.currentInput)
    requires TryEval(Normalize(s.expressionText + s.currentInput), num) == Some(v) && v < 0.0
    ensures var o := PostfixApplied(s, Root, num);
      o.error && o.next.currentInput == [] && o.next.previousInput == [] && o.next.currentOperation.None? &&
      !o.next.complete && o.next.expressionText == PostfixLabel(Root, s.expressionText + s.currentInput)
  {
    OperandIsWholeText(s);
  }

  /** The reciprocal of zero writes `ERROR` and changes only the flag. */
  lemma ReciprocalOfZero(s: Snapshot, num: Numerics)
    requires !AllSpace(s.expressionText + s.currentInput)
    requires TryEval(Normalize(s.expressionText + s.currentInput), num) == Some(0.0)
    ensures PostfixApplied(s, Inverse, num) == Outcome(s.(complete := false), true)
  {
    OperandIsWholeText(s);
  }

  lemma LabelEnds(key: Postfix, e: string)
    ensures EndsWith(PostfixLabel(key, e), " = ")
  {
    var l := PostfixLabel(key, e);
    var head := match key case Root => "√(" + e + ")" case Sq => "(" + e + ")²" case Inverse => "1/(" + e + ")";
    assert l == head + " = ";
    assert l[|l| - 3..] == " = ";
  }

  /** On any value the key accepts, the result of the key is shown, the expression becomes
      the key's label around the text, and the calculation is complete. */
  lemma PostfixSuccess(s: Snapshot, key: Postfix, num: Numerics, v: real)
    requires !AllSpace(s.expressionText + s.currentInput)
    requires TryEval(Normalize(s.expressionText + s.currentInput), num) == Some(v) && !Refused(key, v)
    ensures var o := PostfixApplied(s, key, num); var e := s.expressionText + s.currentInput;
      !o.error && o.next.complete && o.next.previousInput == [] && o.next.currentOperation.None? &&
      o.next.currentInput == Show(num, PostfixValue(key, v, num)) &&
      o.next.expressionText == PostfixLabel(key, e) && EndsWith(o.next.expressionText, " = ")
  {
    OperandIsWholeText(s);
    var e := s.expressionText + s.currentInput;
    assert Operand(s) == e;
    LabelEnds(key, e);
  }

  /** Keys `5`, `+`, `3` on a cleared calculator. */
  lemma FivePlusThree(flip: string -> string)
    ensures Appended(Operated(Appended(Cleared, "5", flip), "+", "+"), "3", flip)
         == Snapshot("3", "5 + ", [], Some("+"), false)
  {
    var a := Appended(Cleared, "5", flip);
    assert a == Snapshot("5", [], [], None, false);
    var b := Operated(a, "+", "+");
    assert b == Snapshot([], "5 + ", [], Some("+"), false);
  }

  // ---------------------------------------------------------------------------
  // The state as the page keeps it

  class State {
    var currentInput: string
    var expressionText: string
    var previousInput: string
    var currentOperation: Option<string>
    var calculationComplete: bool

    function Snap(): Snapshot
      reads this
    {
      Snapshot(currentInput, expressionText, previousInput, currentOperation, calculationComplete)
    }

    constructor ()
      ensures Snap() == Cleared
    {
      currentInput := [];
      expressionText := [];
      previousInput := [];
      currentOperation := None;
      calculationComplete := false;
    }

    /** `clear`. */
    method Clear()
      modifies this
      ensures Snap() == Cleared
    {
      currentInput := [];
      previousInput := [];
      currentOperation := None;
      expressionText := [];
      calculationComplete := false;
    }

    /** `backspace`. */
    method Backspace()
      modifies this
      ensures Snap() == Backspaced(old(Snap()))
    {
      if currentInput != [] {
        currentInput := DropLast(currentInput);
        return;
      }
      if expressionText != [] {
        expressionText := TrimEnd(expressionText);
        expressionText := DropLast(expressionText);
      }
    }

    method StartOver()
      modifies this
      ensures Snap() == Fresh(old(Snap()))
    {
      if calculationComplete {
        Clear();
        calculationComplete := false;
      }
    }

    /** `appendNumber`. */
    method AppendNumber(key: string, flip: string -> string)
      modifies this
      ensures Snap() == Appended(old(Snap()), key, flip)
    {
      StartOver();
      if key == "." && '.' in currentInput {
        return;
      }
      if key == "+/-" {
        if LastIndexOf(currentInput, '^') != -1 {
          currentInput := ToggleExponent(currentInput, flip);
        } else {
          assert '^' !in currentInput;
          currentInput := ToggleSign(currentInput);
        }
        return;
      }
      currentInput := currentInput + key;
    }

    /** `appendParenthesis`. */
    method AppendParenthesis(p: string)
      modifies this
      ensures Snap() == Typed(old(Snap()), p)
    {
      StartOver();
      currentInput := currentInput + p;
    }

    /** `appendFunction`: the name and its opening parenthesis. */
    method AppendFunction(fn: string)
      modifies this
      ensures Snap() == Typed(old(Snap()), fn + "(")
    {
      StartOver();
      currentInput := currentInput + fn + "(";
    }

    /** `appendCaret`. */
    method AppendCaret()
      modifies this
      ensures Snap() == Typed(old(Snap()), "^")
    {
      StartOver();
      currentInput := currentInput + "^";
    }

    /** `handleOperator`. */
    method HandleOperator(op: string, display: string)
      modifies this
      ensures Snap() == Operated(old(Snap()), op, display)
    {
      if calculationComplete {
        calculationComplete := false;
        previousInput := currentInput;
        expressionText := currentInput + " " + display + " ";
        currentInput := [];
        currentOperation := Some(op);
        return;
      }
      if currentInput != [] {
        expressionText := expressionText + currentInput + " " + display + " ";
        currentInput := [];
        currentOperation := Some(op);
        previousInput := [];
        return;
      }
      if EndsWithOperator(expressionText) {
        expressionText := expressionText[..|expressionText| - 2] + display + " ";
        currentOperation := Some(op);
      }
    }

    /** Sets all five fields at once. */
    method Load(n: Snapshot)
      modifies this
      ensures Snap() == n
    {
      currentInput, expressionText, previousInput, currentOperation, calculationComplete :=
        n.currentInput, n.expressionText, n.previousInput, n.currentOperation, n.complete;
    }

    /** `calculate`. */
    method Calculate(num: Numerics)
      modifies this
      ensures Snap() == Calculated(old(Snap()), num)
    {
      var exprRaw := expressionText + currentInput;
      var preview := TryEval(Normalize(exprRaw), num);
      if preview.None? {
        return;
      }
      Load(Snapshot(Show(num, preview.value), SanitizeEquals(exprRaw) + " = ", [], None, true));
    }

    /** `calculateSquareRoot`, `calculateSquare` or `calculateReciprocal`, as `key` says;
        `error` is whether the handler writes `ERROR` to the result field. The page clears
        the completion flag first; nothing it reads afterwards depends on the flag, so here
        it is cleared with the other fields. */
    method CalculatePostfix(key: Postfix, num: Numerics) returns (error: bool)
      modifies this
      ensures Snap() == PostfixApplied(old(Snap()), key, num).next
      ensures error == PostfixApplied(old(Snap()), key, num).error
    {
      var e := expressionText + currentInput;
      if AllSpace(e) && currentInput != [] {
        e := currentInput;
      }
      if AllSpace(e) {
        calculationComplete := false;
        return key == Inverse;
      }
      var value := TryEval(Normalize(e), num);
      if value.None? {
        calculationComplete := false;
        return true;
      }
      var v := value.value;
      if key == Root && v < 0.0 {
        Load(Snapshot([], PostfixLabel(key, e), [], None, false));
        return true;
      }
      if key == Inverse && v == 0.0 {
        calculationComplete := false;
        return true;
      }
      Load(Snapshot(Show(num, PostfixValue(key, v, num)), PostfixLabel(key, e), [], None, true));
      return false;
    }
  }
}
