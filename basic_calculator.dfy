/**
  The older two-operand calculator: a token, a first operand, a pending operator and the
  expression line. After `=` the token holds a JavaScript number rather than a string, which
  changes how later keys treat it (truthiness in `||`, strict comparison with `''`, and the
  missing `includes` method); `Cell` keeps that distinction. The arithmetic itself is given
  by `Arith`.
 */
module BasicCalculator {
  import opened Wrappers
  import opened JsText

  /** A token: a string typed on the keypad, or a number a calculation stored, kept as the
      text `toString` gives it. */
  datatype Cell = Str(s: string) | Num(text: string)

  /** `String(c)`: the text of the token. */
  function Text(c: Cell): string {
    match c
    case Str(s) => s
    case Num(t) => t
  }

  /** JavaScript truthiness: the empty string, `0` (also `-0`, shown as `0`) and `NaN` are
      false. */
  predicate Truthy(c: Cell) {
    match c
    case Str(s) => s != []
    case Num(t) => t != "0" && t != "NaN"
  }

  /** `a || b`. */
  function Or(a: Cell, b: Cell): (r: Cell)
    ensures r == a || r == b
    ensures Truthy(a) ==> r == a
    ensures !Truthy(a) ==> r == b
  {
    if Truthy(a) then a else b
  }

  const Empty := Str([])

  /** The floating-point parts: the operator switch of `calculate` (`compute(op, prev, cur)`
      on the parsed operands, rounded, as its `toString` text), `parseFloat(x) * -1`, the
      rounded square and the rounded reciprocal, each of a token's text. */
  datatype Arith = Arith(
    compute: (string, string, string) -> string,
    negate: string -> string,
    square: string -> string,
    reciprocal: string -> string)

  /** The four closure variables. */
  datatype Snapshot = Snapshot(
    currentInput: Cell,
    previousInput: Cell,
    currentOperation: Option<string>,
    expressionText: string)

  /** The state after `clear`, which is also the state the page starts in. */
  const Cleared := Snapshot(Empty, Empty, None, [])

  /** `backspace`. */
  function Backspaced(s: Snapshot): Snapshot {
    if s.currentInput != Empty then s.(currentInput := Str(DropLast(Text(s.currentInput))))
    else if s.currentOperation.Some? && s.previousInput != Empty then
      s.(currentInput := s.previousInput, previousInput := Empty, currentOperation := None, expressionText := [])
    else s
  }

  /** The new state after a key, and whether the handler threw: `includes` on a number is a
      `TypeError`, which abandons the key. */
  datatype Step = Step(next: Snapshot, thrown: bool)

  /** `appendNumber`. */
  function AppendedNumber(s: Snapshot, key: string, a: Arith): Step {
    if key == "." && s.currentInput.Num? then Step(s, true)
    else if key == "." && '.' in Text(s.currentInput) then Step(s, false)
    else if key == "+/-" then
      if s.currentInput == Empty then Step(s, false)
      else Step(s.(currentInput := Str(a.negate(Text(s.currentInput)))), false)
    else Step(s.(currentInput := Str(Text(s.currentInput) + key)), false)
  }

  /** The operators the switch of `calculate` knows. */
  predicate Known(op: string) {
    op in {"+", "-", "*", "/", "%"}
  }

  /** `calculate`. */
  function Calculated(s: Snapshot, a: Arith): Snapshot {
    if s.currentOperation.None? || s.previousInput == Empty then s
    else
      var current := if s.currentInput == Empty then s.previousInput else s.currentInput;
      if !ParseFloatGivesNumber(Text(s.previousInput)) || !ParseFloatGivesNumber(Text(current)) then s
      else if !Known(s.currentOperation.value) then s
      else
        var full := s.expressionText + Text(Or(s.currentInput, s.previousInput));
        Snapshot(Num(a.compute(s.currentOperation.value, Text(s.previousInput), Text(current))), Empty, None,
                 full + " = ")
  }

  /** `handleOperator(op, display)`. */
  function Operated(s: Snapshot, op: string, display: string, a: Arith): Snapshot {
    if s.currentInput == Empty && s.previousInput == Empty then s
    else if s.currentInput == Empty && s.previousInput != Empty && s.currentOperation.Some? then
      s.(currentOperation := Some(op), expressionText := DropLast(s.expressionText) + display)
    else
      var t := if s.previousInput != Empty && s.currentInput != Empty then Calculated(s, a) else s;
      var first := Or(t.currentInput, t.previousInput);
      Snapshot(Empty, first, Some(op), Text(first) + " " + display + " ")
  }

  /** `calculateSquare`. */
  function Squared(s: Snapshot, a: Arith): Snapshot {
    if s.currentInput == Empty && s.previousInput == Empty then s
    else
      var v := Or(s.currentInput, s.previousInput);
      if v == Empty || !ParseFloatGivesNumber(Text(v)) then s
      else
        var base := s.expressionText;
        var line :=
          if '=' in base then "(" + Text(v) + ")² = "
          else if s.currentOperation.Some? then base + "(" + Text(v) + ")² = "
          else Text(v) + "² = ";
        Snapshot(Str(a.square(Text(v))), Empty, None, line)
  }

  /** The token `calculateReciprocal` works on: `currentInput || previousInput || '0'`. */
  function ReciprocalToken(s: Snapshot): Cell {
    Or(Or(s.currentInput, s.previousInput), Str("0"))
  }

  /** A post-fix key's new state and whether the handler writes `ERROR` to the result field. */
  datatype Outcome = Outcome(next: Snapshot, error: bool)

  /** `calculateReciprocal`. */
  function Reciprocated(s: Snapshot, a: Arith): Outcome {
    var n := ReciprocalToken(s);
    if n == Str("0") then Outcome(s, true)
    else Outcome(Snapshot(Str(a.reciprocal(Text(n))), Empty, None, "1/(" + Text(n) + ") = "), false)
  }

  // ---------------------------------------------------------------------------
  // What the key handlers promise

  /** `backspace`: a non-empty token loses its last character (a stored number becomes its
      text without the last character; a string token is never empty here) and nothing
      else changes; with an empty token and a
      pending operation the first operand comes back as the token and the rest is cleared;
      otherwise nothing changes. */
  lemma BackspaceEffect(s: Snapshot)
    ensures s.currentInput != Empty ==>
      var r := Backspaced(s); var t := Text(s.currentInput);
      r == s.(currentInput := r.currentInput) && r.currentInput.Str? &&
      (t != [] ==> r.currentInput.s + [t[|t| - 1]] == t)
    ensures s.currentInput == Empty && s.currentOperation.Some? && s.previousInput != Empty ==>
      Backspaced(s) == Snapshot(s.previousInput, Empty, None, [])
    ensures s.currentInput == Empty && (s.currentOperation.None? || s.previousInput == Empty) ==>
      Backspaced(s) == s
  {
  }

  /** `appendNumber`: a `.` on a stored number throws and changes nothing; a second `.` is
      ignored; `+/-` on an empty token is ignored; any other key is appended to the token. */
  lemma AppendNumberEffect(s: Snapshot, key: string, a: Arith)
    ensures key == "." && s.currentInput.Num? ==> AppendedNumber(s, key, a) == Step(s, true)
    ensures key == "." && s.currentInput.Str? && '.' in s.currentInput.s ==> AppendedNumber(s, key, a) == Step(s, false)
    ensures key == "+/-" && s.currentInput == Empty ==> AppendedNumber(s, key, a) == Step(s, false)
    ensures key != "." && key != "+/-" ==>
      var r := AppendedNumber(s, key, a);
      !r.thrown && r.next == s.(currentInput := r.next.currentInput) &&
      r.next.currentInput == Str(Text(s.currentInput) + key)
  {
  }

  /** Backspace undoes a typed character. */
  lemma BackspaceUndoesDigit(s: Snapshot, c: char, a: Arith)
    requires s.currentInput.Str? && (c == '.' ==> '.' !in s.currentInput.s)
    ensures Backspaced(AppendedNumber(s, [c], a).next) == s
  {
    var t := s.currentInput.s;
    assert [c] != "+/-";
    assert (t + [c])[..|t|] == t;
  }

  /** `handleOperator` ignores the key while both operands are empty. */
  lemma OperatorWithoutOperands(s: Snapshot, op: string, display: string, a: Arith)
    requires s.currentInput == Empty && s.previousInput == Empty
    ensures Operated(s, op, display, a) == s
  {
  }

  /** Changing the operator: only the operation and the expression change, and the
      expression loses one character before the new operator is added. */
  lemma OperatorChange(s: Snapshot, op: string, display: string, a: Arith)
    requires s.currentInput == Empty && s.previousInput != Empty && s.currentOperation.Some?
    ensures var r := Operated(s, op, display, a);
      r == s.(currentOperation := Some(op), expressionText := r.expressionText) &&
      r.expressionText == DropLast(s.expressionText) + display
  {
  }

  /** With the expression ending in a space, as the operator key leaves it, the operator
      change removes only that space: `5 + ` becomes `5 +×`. */
  lemma OperatorChangeKeepsOldOperator(a: Arith)
    ensures Operated(Snapshot(Empty, Str("5"), Some("+"), "5 + "), "*", "×", a)
         == Snapshot(Empty, Str("5"), Some("*"), "5 +×")
  {
    assert DropLast("5 + ") == "5 +";
  }

  /** Any other operator key leaves an empty token, the given operator, and an expression
      made of the first operand and the operator. The first operand is the token when there
      was none before (or nothing, for a false token), the old first operand when the token
      is empty, and otherwise `currentInput || previousInput` after the chained `calculate`. */
  lemma OperatorOtherwise(s: Snapshot, op: string, display: string, a: Arith)
    requires !(s.currentInput == Empty && s.previousInput == Empty)
    requires !(s.currentInput == Empty && s.currentOperation.Some?)
    ensures var r := Operated(s, op, display, a);
      r.currentInput == Empty && r.currentOperation == Some(op) &&
      r.expressionText == Text(r.previousInput) + " " + display + " "
    ensures var r := Operated(s, op, display, a);
      && (s.previousInput == Empty ==> r.previousInput == if Truthy(s.currentInput) then s.currentInput else Empty)
      && (s.currentInput == Empty ==> r.previousInput == s.previousInput)
      && (s.previousInput != Empty && s.currentInput != Empty ==>
            var t := Calculated(s, a); r.previousInput == Or(t.currentInput, t.previousInput))
  {
  }

  /** `5` then `+` stores `5` as the first operand. */
  lemma FivePlusStoresFive(a: Arith)
    ensures Operated(Snapshot(Str("5"), Empty, None, []), "+", "+", a) == Snapshot(Empty, Str("5"), Some("+"), "5 + ")
  {
  }

  /** An operator key right after a first number, and then backspace, give the number back. */
  lemma BackspaceUndoesOperator(x: string, op: string, display: string, a: Arith)
    requires x != []
    ensures Backspaced(Operated(Snapshot(Str(x), Empty, None, []), op, display, a))
         == Snapshot(Str(x), Empty, None, [])
  {
  }

  /** `calculate` does nothing without a pending operation or a first operand. */
  lemma CalculateNeedsOperands(s: Snapshot, a: Arith)
    requires s.currentOperation.None? || s.previousInput == Empty
    ensures Calculated(s, a) == s
  {
  }

  /** When `calculate` changes anything, the token is a stored number, the operation and the
      first operand are cleared, and the expression ends in ` = `. */
  lemma CalculateEffect(s: Snapshot, a: Arith)
    ensures var r := Calculated(s, a);
      r == s || (r.currentInput.Num? && r.currentOperation.None? && r.previousInput == Empty &&
                 EndsWith(r.expressionText, " = "))
    ensures Calculated(s, a) != s ==> s.currentOperation.Some? && Known(s.currentOperation.value)
  {
    var r := Calculated(s, a);
    if r != s {
      var e := r.expressionText;
      assert e[|e| - 3..] == " = ";
    }
  }

  /** `calculateReciprocal`: when the chosen token is `"0"` nothing changes and `ERROR` is
      written to the result field; otherwise the expression is `1/(token) = ` and the operation and the first
      operand are cleared. */
  lemma ReciprocalEffect(s: Snapshot, a: Arith)
    ensures ReciprocalToken(s) == Str("0") ==> Reciprocated(s, a) == Outcome(s, true)
    ensures ReciprocalToken(s) != Str("0") ==>
      var o := Reciprocated(s, a);
      !o.error && o.next.expressionText == "1/(" + Text(ReciprocalToken(s)) + ") = " &&
      o.next.currentOperation.None? && o.next.previousInput == Empty
    ensures ReciprocalToken(s) == s.currentInput || ReciprocalToken(s) == s.previousInput || ReciprocalToken(s) == Str("0")
  {
  }

  /** `calculateSquare` ignores the key while both operands are empty; otherwise, when it
      squares, the expression is `(v)² = ` after a finished calculation, the pending
      expression followed by `(v)² = ` while an operation is pending, and `v² = ` otherwise. */
  lemma SquareEffect(s: Snapshot, a: Arith)
    ensures s.currentInput == Empty && s.previousInput == Empty ==> Squared(s, a) == s
    ensures var v := Or(s.currentInput, s.previousInput); var r := Squared(s, a);
      v != Empty && ParseFloatGivesNumber(Text(v)) ==>
        r.currentOperation.None? && r.previousInput == Empty &&
        r.expressionText ==
          (if '=' in s.expressionText then "(" + Text(v) + ")² = "
           else if s.currentOperation.Some? then s.expressionText + "(" + Text(v) + ")² = "
           else Text(v) + "² = ")
  {
  }

  // ---------------------------------------------------------------------------
  // The closure variables

  class State {
    var currentInput: Cell
    var previousInput: Cell
    var currentOperation: Option<string>
    var expressionText: string

    function Snap(): Snapshot
      reads this
    {
      Snapshot(currentInput, previousInput, currentOperation, expressionText)
    }

    constructor ()
      ensures Snap() == Cleared
    {
      currentInput := Empty;
      previousInput := Empty;
      currentOperation := None;
      expressionText := [];
    }

    /** `clear`. */
    method Clear()
      modifies this
      ensures Snap() == Cleared
    {
      currentInput := Empty;
      previousInput := Empty;
      currentOperation := None;
      expressionText := [];
    }

    /** `backspace`. */
    method Backspace()
      modifies this
      ensures Snap() == Backspaced(old(Snap()))
    {
      if currentInput != Empty {
        currentInput := Str(DropLast(Text(currentInput)));
      } else if currentOperation.Some? && previousInput != Empty {
        currentInput := previousInput;
        previousInput := Empty;
        currentOperation := None;
        expressionText := [];
      }
    }

    /** `appendNumber`; `thrown` is whether the handler stopped with a `TypeError`. */
    method AppendNumber(key: string, a: Arith) returns (thrown: bool)
      modifies this
      ensures Snap() == AppendedNumber(old(Snap()), key, a).next
      ensures thrown == AppendedNumber(old(Snap()), key, a).thrown
    {
      if key == "." {
        if currentInput.Num? {
          return true;
        }
        if '.' in currentInput.s {
          return false;
        }
      }
      if key == "+/-" {
        if currentInput == Empty {
          return false;
        }
        currentInput := Str(a.negate(Text(currentInput)));
        return false;
      }
      currentInput := Str(Text(currentInput) + key);
      return false;
    }

    /** `calculate`. */
    method Calculate(a: Arith)
      modifies this
      ensures Snap() == Calculated(old(Snap()), a)
    {
      if currentOperation.None? || previousInput == Empty {
        return;
      }
      var current := if currentInput == Empty then previousInput else currentInput;
      if !ParseFloatGivesNumber(Text(previousInput)) || !ParseFloatGivesNumber(Text(current)) {
        return;
      }
      var fullExpression := expressionText + Text(Or(currentInput, previousInput));
      var op := currentOperation.value;
      if !Known(op) {
        return;
      }
      currentInput := Num(a.compute(op, Text(previousInput), Text(current)));
      expressionText := fullExpression + " = ";
      currentOperation := None;
      previousInput := Empty;
    }

    /** `handleOperator`. */
    method HandleOperator(op: string, display: string, a: Arith)
      modifies this
      ensures Snap() == Operated(old(Snap()), op, display, a)
    {
      if currentInput == Empty && previousInput == Empty {
        return;
      }
      if currentInput == Empty && previousInput != Empty && currentOperation.Some? {
        currentOperation := Some(op);
        expressionText := DropLast(expressionText) + display;
        return;
      }
      if previousInput != Empty && currentInput != Empty {
        Calculate(a);
      }
      currentOperation := Some(op);
      previousInput := Or(currentInput, previousInput);
      expressionText := Text(previousInput) + " " + display + " ";
      currentInput := Empty;
    }

    /** `calculateSquare`. */
    method CalculateSquare(a: Arith)
      modifies this
      ensures Snap() == Squared(old(Snap()), a)
    {
      if currentInput == Empty && previousInput == Empty {
        return;
      }
      var valueToSquare := Or(currentInput, previousInput);
      if valueToSquare == Empty {
        return;
      }
      if !ParseFloatGivesNumber(Text(valueToSquare)) {
        return;
      }
      var baseExpression := expressionText;
      currentInput := Str(a.square(Text(valueToSquare)));
      if '=' in baseExpression {
        expressionText := "(" + Text(valueToSquare) + ")² = ";
      } else if currentOperation.Some? {
        expressionText := baseExpression + "(" + Text(valueToSquare) + ")² = ";
      } else {
        expressionText := Text(valueToSquare) + "² = ";
      }
      currentOperation := None;
      previousInput := Empty;
    }

    /** `calculateReciprocal`; `error` is whether the handler writes `ERROR` to the result field. */
    method CalculateReciprocal(a: Arith) returns (error: bool)
      modifies this
      ensures Snap() == Reciprocated(old(Snap()), a).next
      ensures error == Reciprocated(old(Snap()), a).error
    {
      var numberToCalculate := Or(Or(currentInput, previousInput), Str("0"));
      if numberToCalculate == Str("0") {
        return true;
      }
      expressionText := "1/(" + Text(numberToCalculate) + ") = ";
      currentInput := Str(a.reciprocal(Text(numberToCalculate)));
      previousInput := Empty;
      currentOperation := None;
      return false;
    }
  }
}
