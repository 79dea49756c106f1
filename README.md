# Calculator and recipe helper: a Dafny model

The page is a browser calculator with a recipe helper beside it. `script.js` holds both
tools; `jisuanqi/script.js` is an older, simpler calculator. This project models the logic
behind them and proves what that logic does.

- **Calculator** (`script.js`). The display has two lines. The first is the token being
  typed (`currentInput`), the second the expression built so far (`expressionText`).
  `calculator.dfy` models the five pieces of state:
  - the token;
  - the expression;
  - the first operand (`previousInput`);
  - the pending operation;
  - the completion flag.

  Each key handler is a function from one state to the next. A `Calculator.State` class
  keeps the fields and has one method per handler.
  - `number_scanner.dfy`: `findNumberBoundaries`, the scanner that finds numeric literals.
  - `sign_toggle.dfy`: the `+/-` key. It flips the sign of the trailing `sin`/`cos`/`tan`
    call, or of the last number, or of the exponent after the last `^`.
  - `normalizer.dfy`: `sanitizeEquals` and `normalizeExpression`, which rewrites the
    display notation (`×`, `÷`, `^`, `sin(…)` in degrees, `√(…)`, `(…)²`) into
    JavaScript.
  - `evaluator.dfy`: `parenthesesBalanced` and `tryEval`.
- **Old calculator** (`jisuanqi/script.js`). `basic_calculator.dfy` models it. It keeps two
  operands and an operation, and its tokens can be strings or numbers. JavaScript's `||`
  and its truthiness rules decide which operand is used.
- **Recipe helper** (`script.js`). `recipes.dfy` models:
  - the recipe and incompatible-pair CSV readers;
  - `canonicalizeIngredient` and its alias table;
  - `findConflicts`;
  - `recommendRecipes`: it scores the recipes against the selected ingredients, keeps
    those with a match, sorts them stably by the comparator and takes the first `topN`.
- `js_text.dfy`: the JavaScript string operations the code relies on (`trim`, `split`,
  `indexOf`, `lastIndexOf`, `slice(0, -1)`, the `\s` class). `wrappers.dfy`: `Option`.

Some parts of the code are pure expressions: the scanner's specification, the rewrites,
the readers' line functions and the ranking. These are functions. Other parts are loops
or change state in place: the scanner loop, the parenthesis counter, the CSV loops,
`findConflicts` and the calculators' closure variables. These are methods with loop
invariants, or classes. Each method is proved equal to the function that specifies it.

Two consequences of the `+/-` code are worth knowing:
- `+/-` on `12` gives `(-12)`, and `+/-` on `(-12)` gives `(12)`, not `12`. The scanner
  reads `(-12)` as the spans `(` and `-12)`, and only the last span is rewritten
  (`SignToggle.TwelveToggles`, `SignToggle.WrappedDigitsToggle`).
- On a text ending in a `sin`, `cos` or `tan` call, toggling twice restores the text,
  except when the call is preceded by `--`: the second toggle then removes the second `-`
  as well, so `--sin(30)` becomes `sin(30)` (`SignToggle.CallToggleTwice`).

## Model

| member | source | states |
|---|---|---|
| JsText.TrimEnd | script.js:328 | the result is a prefix, what it drops is white space, and it does not end in white space |
| JsText.TrimStart | script.js:916 | the result is a suffix, what it drops is white space, and it does not start with white space |
| JsText.Trim | script.js:916 | the result has no white space at either end; it is empty exactly when the text is all white space |
| JsText.TrimOfTrimmed | script.js:918 | trimming a trimmed text leaves it unchanged |
| JsText.IndexOf | script.js:669 | the first index holding the character, or -1 when there is none |
| JsText.LastIndexOf | script.js:347 | the last index holding the character, or -1 when there is none |
| JsText.LastIndexOfJoin | script.js:347 | in `s + c + t` with no `c` in `t`, the last `c` is the one right after `s` |
| JsText.DropLast | script.js:323 | `slice(0, -1)` is a prefix one character shorter (empty stays empty) |
| JsText.Split | script.js:935 | there is at least one piece, and no piece holds the separator |
| JsText.SplitCount | script.js:916 | there is one more piece than there are separators |
| JsText.SplitJoin | script.js:935 | joining the pieces with the separator gives the text back |
| NumberScanner.SpanEnd | script.js:455-457 | the literal runs over digit parts up to the first character that is not one |
| NumberScanner.ScanFromInOrder | script.js:438-468 | the spans found from index `i` on are inside the text, increasing and non-overlapping |
| NumberScanner.ScanFromLiterals | script.js:438-500 | each span starts at a digit start, covers only digit parts and is maximal |
| NumberScanner.ScanFromGaps | script.js:438-487 | no index between the spans is a digit start: no literal is missed |
| NumberScanner.NumberSpansOk | script.js:438-500 | the spans of the whole text are in order, are maximal literals, and miss none |
| NumberScanner.SpanShapes | script.js:471-500 | a span holds no space; a `-` span continues with a digit; a `(` span is that character alone, followed by `-` |
| NumberScanner.FindNumberBoundaries | script.js:438-468 | the scanning loop returns exactly the specified spans |
| NumberScanner.IsDigitStart | script.js:471-487 | a literal can begin at a digit, at `-` or `.` followed by a digit, and at `(` followed by `-` and a digit |
| NumberScanner.IsDigitPart | script.js:490-500 | a literal continues over digits, `.` and `)` |
| NumberScanner.ScanFrom | script.js:438-468 | the scan from index `i`: skip to the next digit start, take the span up to `SpanEnd`, and go on after it; its properties are stated by ScanFromInOrder, ScanFromLiterals and ScanFromGaps |
| NumberScanner.NumberSpans | script.js:438-468 | the spans of the scan from index 0; NumberSpansOk states their properties |
| SignToggle.ToggleSign | script.js:388-435 | `toggleSignAtCurrentPosition`; its behaviour is stated by CallToggle, CallToggleTwice, LastNumberToggle and the digit lemmas |
| SignToggle.ToggleNumber | script.js:423-432 | the new text of the last span: `-N` loses its sign, `(-N)` is unwrapped, anything else becomes `(-N)` |
| SignToggle.FindCall | script.js:393 | the leftmost index where a trailing call matches (`sin`, `cos` or `tan`, `(`, an argument without `)`, and the final `)`); there is no match before it |
| SignToggle.CallToggle | script.js:393-405 | on a trailing call the toggle removes the `-` right before the leftmost call, or inserts one; nothing else changes |
| SignToggle.CallAfterInsert | script.js:393-405 | after the insertion the leftmost call is the same call, one place to the right |
| SignToggle.CallAfterRemove | script.js:393-405 | after the removal the leftmost call is the same call, one place to the left |
| SignToggle.CallToggleTwice | script.js:388-405 | toggling a trailing call twice restores the text exactly when the call is not preceded by `--` |
| SignToggle.TwiceAfterInsert | script.js:393-405 | when no `-` precedes the call, a second toggle undoes the first |
| SignToggle.TwiceAfterRemove | script.js:393-405 | when a `-` precedes the call, two toggles restore the text exactly when no second `-` precedes it |
| SignToggle.TwiceAfterDoubleMinus | script.js:393-405 | with `--` before the call, two toggles remove two characters |
| SignToggle.TwiceAfterSingleMinus | script.js:393-405 | with a single `-` before the call, two toggles restore the text |
| SignToggle.PlainPrefixCall | script.js:393 | when the text before the call has no `(`, the call found is the one written last |
| SignToggle.ParenthesizedBranchUnused | script.js:424-426 | no span the scanner reports both starts with `(` and ends with `)`, so the unwrap branch never applies |
| SignToggle.LastNumberToggle | script.js:407-434 | with no number, `-` is appended; otherwise only the last span changes (it loses its `-` or becomes `(-N)`), and no literal follows it |
| SignToggle.DigitsToggle | script.js:407-434 | a plain number `N` becomes `(-N)` |
| SignToggle.NegatedDigitsToggle | script.js:407-434 | `-N` becomes `N` |
| SignToggle.WrappedSpans | script.js:438-468 | `(-N)` scans as the span `(` followed by the span `-N)` |
| SignToggle.WrappedDigitsToggle | script.js:407-434 | `(-N)` becomes `(N)` |
| SignToggle.TwelveToggles | script.js:407-434 | `12` becomes `(-12)`, and toggling again gives `(12)` |
| SignToggle.ToggleExponent | script.js:346-378 | everything up to and including the last `^` is kept |
| SignToggle.ExponentSignRoundTrip | script.js:354-357 | an empty exponent becomes `-`, and `-` becomes empty again |
| SignToggle.ExponentUnwrap | script.js:358-363 | a parenthesized negative exponent `(-x)` becomes `x` |
| SignToggle.ExponentUnwrapPlain | script.js:358-363 | a parenthesized exponent `(x)` without a leading `-` becomes `x` |
| SignToggle.ToggledExponent | script.js:352-374 | the new exponent text; its branches are stated by ExponentSignRoundTrip, ExponentUnwrap, ExponentUnwrapPlain and ExponentNonNumericUnchanged |
| SignToggle.ExponentNonNumericUnchanged | script.js:346-378 | an exponent that is not empty, not `-`, not parenthesized and not numeric leaves the token unchanged |
| Normalizer.SanitizeEquals | script.js:582-584 | the result is a prefix; what it drops is white space, one `=` and white space; the text changes exactly when it ends in `=` (after trailing white space), and what is kept does not end in white space |
| Normalizer.SanitizeAfterEquals | script.js:573-584 | `sanitizeEquals(expr + " = ")` gives `expr` back whenever `expr` does not end in white space |
| Normalizer.StripFinalEquals | script.js:662 | the result is a prefix; when it is shorter, what it drops is one `=` followed only by white space; otherwise the text does not end in `=` after its trailing white space |
| Normalizer.Subst | script.js:664-666 | no `c` is left when the replacement has none; a text without `c` is unchanged; a non-empty replacement never shortens the text |
| Normalizer.SubstChars | script.js:664-666 | each character of the result is a non-`c` character of the text, or one of the replacement |
| Normalizer.SubstConcat | script.js:664-666 | the substitution acts on the parts of a concatenation separately |
| Normalizer.SubstCons | script.js:664-666 | the substitution acts character by character |
| Normalizer.MatchAt | script.js:669-678 | a match covers a non-empty piece at the start of the text |
| Normalizer.RewriteNoMatch | script.js:669-678 | a rule that matches nowhere leaves the text unchanged |
| Normalizer.MatchCall | script.js:669-671 | `name(x)`, where `x` has no `)`, matches whole and is replaced by the degree form |
| Normalizer.RewriteCall | script.js:669-671 | a call is rewritten and the scan goes on after it |
| Normalizer.MatchSquareRoot | script.js:676 | `√(x)`, with `x` non-empty and without `)`, matches and is replaced by `Math.sqrt(x)` |
| Normalizer.RewriteSquareRoot | script.js:676 | `√(x)` is rewritten to `Math.sqrt(x)` and the scan goes on |
| Normalizer.MatchSquare | script.js:678 | `(x)²` matches and is replaced by `(x)**2` |
| Normalizer.RewriteSquare | script.js:678 | `(x)²` is rewritten to `(x)**2` and the scan goes on |
| Normalizer.MatchNeeds | script.js:669-678 | each rule needs its own character to match: the function name, `√` or `²` |
| Normalizer.NoMatchInArithmetic | script.js:669-678 | no rule matches at the start of plain arithmetic |
| Normalizer.NoRuleMatches | script.js:669-678 | no rule changes plain arithmetic |
| Normalizer.RewritesKeepArithmetic | script.js:668-678 | the function and power rewrites leave plain arithmetic unchanged |
| Normalizer.OperatorsGiveArithmetic | script.js:664-666 | keypad arithmetic written with `×`, `÷`, `^` becomes plain arithmetic |
| Normalizer.PrepareTrimmed | script.js:662 | a trimmed text without a final `=` passes the first step unchanged |
| Normalizer.Normalize | script.js:659-680 | `normalizeExpression`: final `=` dropped and trimmed, operators replaced, then the function and power rewrites; NormalizeArithmetic, NormalizeSin, NormalizeCos, NormalizeTan, NormalizeSquareRoot and NormalizeSquare state its result on the whole pipeline |
| Normalizer.NormalizeArithmetic | script.js:659-680 | keypad arithmetic is normalized only by replacing `×`, `÷`, `^` with `*`, `/`, `**` |
| Normalizer.RewriteSkips | script.js:669-678 | a rewrite copies a stretch without the rule's first character (for the square rule, without `²`) and goes on after it |
| Normalizer.RewritePassesLetter | script.js:669-671 | a call rule does not match at a letter not followed by the second letter of its name |
| Normalizer.ArithmeticLacks | script.js:668-678 | plain arithmetic holds no character outside the keypad's digits, operators and parentheses |
| Normalizer.OperatorsOfKeypad | script.js:664-666 | the operator replacement turns keypad arithmetic into plain arithmetic, adds no `)`, and keeps a non-empty text non-empty |
| Normalizer.PrepareAround | script.js:660-666 | a keypad text between fixed parts without `×`, `÷`, `^` (starting and ending outside white space and `=`) has only its inner operators replaced by the first steps |
| Normalizer.PowersKeep | script.js:676-678 | with no `√` and no `²` the power rewrites change nothing |
| Normalizer.TanPassesTwice | script.js:671 | the `tan` rewrite passes over a text whose only `t`s are not followed by `a` |
| Normalizer.TanKeepsAngle | script.js:669-671 | the `tan` rewrite leaves the output of the `sin` and `cos` rewrites unchanged |
| Normalizer.CosKeepsSine | script.js:669-670 | the `cos` rewrite leaves the output of the `sin` rewrite unchanged |
| Normalizer.PowersKeepAngle | script.js:669-678 | the power rewrites leave the output of the trigonometric rewrites unchanged |
| Normalizer.RewriteWholeCall | script.js:669-671 | a call with nothing after it is rewritten to the JavaScript call alone |
| Normalizer.NormalizeSteps | script.js:659-680 | the result of `normalizeExpression` is that of its stages in order |
| Normalizer.AnglesOfSine | script.js:669-671 | the trigonometric stages turn `sin(y)` into `Math.sin((y) * Math.PI / 180)` |
| Normalizer.NormalizeSin | script.js:659-680 | `sin(x)`, with keypad arithmetic `x` without `)`, becomes `Math.sin((x') * Math.PI / 180)`, where `x'` is `x` with its operators replaced |
| Normalizer.SineKeepsCosine | script.js:669 | the `sin` rewrite leaves `cos(y)` unchanged |
| Normalizer.AnglesOfCosine | script.js:669-671 | the trigonometric stages turn `cos(y)` into `Math.cos((y) * Math.PI / 180)` |
| Normalizer.NormalizeCos | script.js:659-680 | `cos(x)`, with keypad arithmetic `x` without `)`, becomes `Math.cos((x') * Math.PI / 180)` |
| Normalizer.RewritesKeepWithout | script.js:669-670 | a text without `s` and `c` is left unchanged by the `sin` and `cos` rewrites |
| Normalizer.AnglesOfTangent | script.js:669-671 | the trigonometric stages turn `tan(y)` into `Math.tan((y) * Math.PI / 180)` |
| Normalizer.NormalizeTan | script.js:659-680 | `tan(x)`, with keypad arithmetic `x` without `)`, becomes `Math.tan((x') * Math.PI / 180)` |
| Normalizer.AnglesKeep | script.js:669-671 | a text without `s`, `c` and `t` is left unchanged by the trigonometric rewrites |
| Normalizer.AnglesOfSquareRoot | script.js:669-671 | the trigonometric rewrites leave `√(y)` unchanged |
| Normalizer.PowersOfSquareRoot | script.js:676-678 | the power stages turn `√(y)` into `Math.sqrt(y)` |
| Normalizer.NormalizeSquareRoot | script.js:659-680 | `√(x)`, with non-empty keypad arithmetic `x` without `)`, becomes `Math.sqrt(x')` |
| Normalizer.AnglesOfSquare | script.js:669-671 | the trigonometric rewrites leave `(y)²` unchanged |
| Normalizer.PowersOfSquare | script.js:676-678 | the power stages turn `(y)²` into `(y)**2` |
| Normalizer.NormalizeSquare | script.js:659-680 | `(x)²`, with non-empty keypad arithmetic `x` without `)`, becomes `(x')**2` |
| Normalizer.OperatorsConcat | script.js:664-666 | the operator substitution acts on the parts of a concatenation separately |
| Normalizer.OperatorsOfChar | script.js:664-666 | exactly `×`, `÷` and `^` are replaced, by `*`, `/` and `**` |
| Evaluator.ParenthesesBalanced | script.js:682-689 | the counting loop returns true exactly when the running count never drops below zero and ends at zero |
| Evaluator.DepthConcat | script.js:682-689 | the count of a concatenation is the sum of the counts |
| Evaluator.NoParensBalanced | script.js:682-689 | a text without parentheses is balanced |
| Evaluator.WrapKeepsBalance | script.js:682-689 | putting a balanced text between parentheses keeps it balanced |
| Evaluator.TryEval | script.js:691-704 | the empty text gives 0; an unbalanced text gives null without being run; otherwise the rounded runtime value, or null when the runtime fails |
| Evaluator.OpenParenRefused | script.js:691-704 | a lone `(` is refused |
| Calculator.Backspaced | script.js:321-331 | `backspace`; BackspaceEffect and BackspaceUndoesTyping state what it does |
| Calculator.Typed | script.js:502-528 | the entry keys that only add text: start over if needed, then append; EntryAfterResult and BackspaceUndoesTyping state what it does |
| Calculator.Appended | script.js:334-385 | `appendNumber`; AppendNumberEffect and EntryAfterResult state what it does |
| Calculator.Operated | script.js:531-556 | `handleOperator`; HandleOperatorEffect and LastOperatorWins state what it does |
| Calculator.Calculated | script.js:564-580 | `calculate`; CalculateSuccess, CalculateFailureKeepsState and CalculateUnbalanced state what it does |
| Calculator.PostfixApplied | script.js:138-309 | the three post-fix keys; PostfixBlank, PostfixFailure, SquareRootOfNegative, ReciprocalOfZero and PostfixSuccess state what they do |
| Calculator.BackspaceEffect | script.js:321-331 | backspace drops the last character of the token; with an empty token, the last non-space character of the expression and the white space after it; nothing else changes |
| Calculator.EntryAfterResult | script.js:334-339 | after a finished calculation, every entry key acts as it would on a cleared calculator |
| Calculator.AppendNumberEffect | script.js:334-385 | the flag is cleared; a second `.` is ignored; `+/-` toggles the exponent or the sign; any other key is appended |
| Calculator.BackspaceUndoesTyping | script.js:321-385 | backspace undoes one typed character |
| Calculator.HandleOperatorEffect | script.js:531-556 | each of the four branches of `handleOperator`: after a result, with a token, replacing a trailing operator, and doing nothing |
| Calculator.LastOperatorWins | script.js:549-555 | two operator keys in a row act as the second alone |
| Calculator.CalculateFailureKeepsState | script.js:564-569 | when evaluation fails, nothing changes |
| Calculator.CalculateUnbalanced | script.js:564-569 | unbalanced parentheses leave the state unchanged |
| Calculator.CalculateSuccess | script.js:564-580 | on success the token shows the value, the operation and operand are cleared, the flag is set, and the expression is the raw text followed by ` = `, with a final `=` and the white space around it dropped: the raw text is kept exactly when it does not end in `=`, and otherwise what is kept does not end in white space |
| Calculator.CalculateNothing | script.js:564-580 | `=` on a cleared calculator shows 0 |
| Calculator.OperandIsWholeText | script.js:145-150 | the fallback to the token alone is taken only when both texts are blank |
| Calculator.PostfixBlank | script.js:138-309 | a post-fix key on a blank text changes only the flag; only the reciprocal's handler writes `ERROR` to the result field |
| Calculator.PostfixFailure | script.js:138-309 | when evaluation fails, the handler writes `ERROR` to the result field and changes only the flag |
| Calculator.SquareRootOfNegative | script.js:166-178 | a negative square root makes the handler write `ERROR` to the result field; it keeps `√(expr) = ` and clears the token, the operand and the operation |
| Calculator.ReciprocalOfZero | script.js:281-286 | for the reciprocal of zero the handler writes `ERROR` to the result field and changes only the flag |
| Calculator.LabelEnds | script.js:138-309 | each post-fix label ends in ` = ` |
| Calculator.PostfixSuccess | script.js:138-309 | an accepted value shows the rounded result and the key's label, and completes the calculation |
| Calculator.FivePlusThree | script.js:334-556 | keys `5`, `+`, `3` leave the token `3` under `5 + ` |
| Calculator.State.constructor | script.js:32-35 | the page starts cleared |
| Calculator.State.Clear | script.js:312-318 | every field is reset |
| Calculator.State.Backspace | script.js:321-331 | the new state is the backspace function of the old one |
| Calculator.State.StartOver | script.js:336-339 | a finished calculation is cleared before a new entry |
| Calculator.State.AppendNumber | script.js:334-385 | the new state is the `appendNumber` function of the old one |
| Calculator.State.AppendParenthesis | script.js:502-509 | the parenthesis is typed after starting over |
| Calculator.State.AppendFunction | script.js:511-519 | the name and `(` are typed after starting over |
| Calculator.State.AppendCaret | script.js:521-528 | `^` is typed after starting over |
| Calculator.State.HandleOperator | script.js:531-556 | the new state is the `handleOperator` function of the old one |
| Calculator.State.Calculate | script.js:564-580 | the new state is the `calculate` function of the old one |
| Calculator.State.CalculatePostfix | script.js:138-309 | the new state, and whether the handler writes `ERROR` to the result field, are those of the post-fix function |
| BasicCalculator.Or | jisuanqi/script.js:174 | JavaScript's or gives its first operand when that is truthy and its second otherwise |
| BasicCalculator.Backspaced | jisuanqi/script.js:125-138 | `backspace`; BackspaceEffect and BackspaceUndoesDigit state what it does |
| BasicCalculator.AppendedNumber | jisuanqi/script.js:141-155 | `appendNumber`, with the `TypeError` of `includes` on a number; AppendNumberEffect states what it does |
| BasicCalculator.Operated | jisuanqi/script.js:158-177 | `handleOperator`; OperatorWithoutOperands, OperatorChange, OperatorOtherwise and BackspaceUndoesOperator state what it does |
| BasicCalculator.Calculated | jisuanqi/script.js:185-225 | `calculate`; CalculateNeedsOperands and CalculateEffect state what it does |
| BasicCalculator.Squared | jisuanqi/script.js:63-96 | `calculateSquare`; SquareEffect states what it does |
| BasicCalculator.Reciprocated | jisuanqi/script.js:99-114 | `calculateReciprocal`; ReciprocalEffect states what it does |
| BasicCalculator.BackspaceEffect | jisuanqi/script.js:125-138 | a non-empty token becomes a string one character shorter; otherwise a pending operand is restored; otherwise nothing changes |
| BasicCalculator.AppendNumberEffect | jisuanqi/script.js:141-155 | `.` on a stored number throws; a second `.` is ignored; `+/-` on an empty token is ignored; other keys are appended |
| BasicCalculator.BackspaceUndoesDigit | jisuanqi/script.js:125-155 | backspace undoes a typed character |
| BasicCalculator.OperatorWithoutOperands | jisuanqi/script.js:159 | the operator key is ignored while both operands are empty |
| BasicCalculator.OperatorChange | jisuanqi/script.js:161-167 | changing the operator drops one character of the expression and appends the new operator |
| BasicCalculator.OperatorChangeKeepsOldOperator | jisuanqi/script.js:161-167 | `5 + ` followed by `×` gives `5 +×`: only the space is dropped |
| BasicCalculator.OperatorOtherwise | jisuanqi/script.js:169-176 | otherwise the token is emptied and the expression is the first operand and the operator; the first operand is the token when there was none before (nothing for a false token), the old first operand when the token is empty, and after the chained `calculate`, when both were present, the new token or, if that is false, the new first operand (`Or`) |
| BasicCalculator.FivePlusStoresFive | jisuanqi/script.js:158-177 | `5` then `+` stores `5` as the first operand and shows `5 + ` |
| BasicCalculator.BackspaceUndoesOperator | jisuanqi/script.js:125-177 | an operator key after a first number, then backspace, gives the number back |
| BasicCalculator.CalculateNeedsOperands | jisuanqi/script.js:186 | without an operation or a first operand, nothing changes |
| BasicCalculator.CalculateEffect | jisuanqi/script.js:185-225 | a change stores a number, clears the operation and operand, ends the expression in ` = `, and needs a known operator |
| BasicCalculator.ReciprocalEffect | jisuanqi/script.js:99-114 | for the token `0` the handler writes `ERROR` to the result field and changes nothing; otherwise the label is `1/(v) = `; the operand is the token, the first operand or `0` |
| BasicCalculator.SquareEffect | jisuanqi/script.js:63-96 | with no operands nothing changes; otherwise the label depends on `=` in the expression and on a pending operation |
| BasicCalculator.State.constructor | jisuanqi/script.js:22-25 | the page starts cleared |
| BasicCalculator.State.Clear | jisuanqi/script.js:117-122 | every variable is reset |
| BasicCalculator.State.Backspace | jisuanqi/script.js:125-138 | the new state is the backspace function of the old one |
| BasicCalculator.State.AppendNumber | jisuanqi/script.js:141-155 | the new state and the thrown flag are those of the `appendNumber` function |
| BasicCalculator.State.Calculate | jisuanqi/script.js:185-225 | the new state is the `calculate` function of the old one |
| BasicCalculator.State.HandleOperator | jisuanqi/script.js:158-177 | the new state is the `handleOperator` function of the old one |
| BasicCalculator.State.CalculateSquare | jisuanqi/script.js:63-96 | the new state is the square function of the old one |
| BasicCalculator.State.CalculateReciprocal | jisuanqi/script.js:99-114 | the new state, and whether the handler writes `ERROR` to the result field, are those of the reciprocal function |
| Recipes.AliasNamesTrimmed | script.js:971-983 | the alias names are non-empty and trimmed |
| Recipes.AliasTargetsTrimmed | script.js:971-983 | the alias targets are non-empty and trimmed |
| Recipes.AliasTargets | script.js:971-983 | the targets are the seven canonical names |
| Recipes.TargetsUnnamed | script.js:971-983 | no target is itself an alias name |
| Recipes.ResolveMissing | script.js:984 | a name that no entry has is not resolved |
| Recipes.IndexOfTarget | script.js:984 | a resolved name comes from an entry with that name |
| Recipes.ResolveFound | script.js:984 | a resolved name and its target are trimmed and non-empty, and the target resolves to nothing |
| Recipes.StartsUnspaced | script.js:971-983 | a name starting with white space is not in the table |
| Recipes.Canonicalize | script.js:968-985 | the result is trimmed |
| Recipes.CanonicalizeEmpty | script.js:968-985 | the result is empty exactly when the name is all white space |
| Recipes.CanonicalizeIdempotent | script.js:968-985 | canonicalizing a trimmed name twice gives the same as once |
| Recipes.CanonicalizeSpaced | script.js:968-985 | a name with a leading space is trimmed but not looked up |
| Recipes.CanonicalizeNeedsTrimmed | script.js:968-985 | `" 西红柿"` gives `"西红柿"`, which gives `"番茄"`: without trimming first the function is not idempotent |
| Recipes.CleanNameFacts | script.js:960-961 | a trimmed, then canonicalized name is canonical, and empty exactly when blank |
| Recipes.SplitLines | script.js:916 | there are as many lines as pieces of the text between its line feeds |
| Recipes.SplitLinesFacts | script.js:916 | there is one line per line feed, plus one; each line is the piece between two line feeds with one carriage return before the line feed dropped (the last piece is kept as it is); no line holds a line feed |
| Recipes.NonBlank | script.js:916 | the filter keeps at most the lines it is given |
| Recipes.NonBlankFacts | script.js:916 | the lines kept are non-blank lines of the input |
| Recipes.NonBlankConcat | script.js:916 | filtering a concatenation filters each part on its own |
| Recipes.NonBlankCons | script.js:916 | the first line is kept unless it is blank |
| Recipes.NonBlankAt | script.js:916 | every line keeps its place: the kept lines are those before it, the line itself unless it is blank, and those after it |
| Recipes.NonBlankComplete | script.js:916 | every non-blank line is kept |
| Recipes.TrimAll | script.js:918 | each header part is the trimmed piece |
| Recipes.CleanAll | script.js:944 | each entry is the cleaned piece |
| Recipes.NonEmpty | script.js:944-947 | `filter(Boolean)` keeps only non-empty entries of its input |
| Recipes.NonEmptyKeeps | script.js:944-947 | `filter(Boolean)` keeps every non-empty entry |
| Recipes.TrimAllTrimmed | script.js:945-947 | trimmed pieces are trimmed |
| Recipes.TrimAllKeeps | script.js:945-947 | a non-blank piece stays, trimmed and non-empty |
| Recipes.CleanAllCanonical | script.js:944 | cleaned pieces are canonical |
| Recipes.CleanAllKeeps | script.js:944 | a non-blank piece stays, cleaned and non-empty |
| Recipes.ItemsTrimmed | script.js:945-947 | list entries are trimmed and non-empty |
| Recipes.ItemsComplete | script.js:945-947 | every non-blank piece of a list field is an entry |
| Recipes.IngredientsCanonical | script.js:944 | ingredients are non-empty canonical names |
| Recipes.IngredientsComplete | script.js:944 | every non-blank piece of the ingredient field is an ingredient, cleaned |
| Recipes.FindIndex | script.js:924-929 | the first position of the heading, or -1 exactly when it is absent |
| Recipes.HeaderColumnsFound | script.js:918-931 | a header's `name` and `stuff` columns are found at their first positions; an absent `tags` column gives -1 |
| Recipes.FieldsWellFormed | script.js:937-948 | a trimmed non-empty name and the cleaned lists make a well-formed recipe |
| Recipes.RecipeRow | script.js:935-948 | one data line of the recipe file; RecipeRowKept and RecipeRowFacts state what it gives |
| Recipes.RecipeRowKept | script.js:935-939 | a line is skipped exactly when it has fewer than two columns or a blank name |
| Recipes.RecipeRowFacts | script.js:935-948 | a kept line gives a well-formed recipe named by its trimmed name column |
| Recipes.ParsedRecipes | script.js:915-951 | what `parseRecipeCSV` returns; ParsedRecipesWellFormed and ParsedRecipesComplete state its properties |
| Recipes.ParseRecipeCsv | script.js:915-932 | the reader returns the recipes of the specified layout |
| Recipes.ReadRecipeRows | script.js:933-950 | the row loop returns the recipes of the lines from `start` on, in order |
| Recipes.RecipeRowsWellFormed | script.js:933-950 | every recipe read is well formed, and there are at most as many recipes as lines |
| Recipes.RecipeRowsComplete | script.js:933-950 | every line with two columns and a non-blank name becomes a recipe |
| Recipes.ParsedRecipesWellFormed | script.js:915-951 | the text's recipes are well formed, and a header line is never read as a recipe |
| Recipes.ParsedRecipesComplete | script.js:915-951 | every non-blank line other than a header, with at least two columns and a non-blank name, gives its recipe |
| Recipes.PairRow | script.js:958-963 | one data line of the pair file; PairRowFacts states what it gives |
| Recipes.PairRowFacts | script.js:958-963 | a pair line is skipped exactly when it has fewer than two columns or a blank name; the pair is well formed |
| Recipes.ParsedPairs | script.js:953-966 | what `parseIncompatibleCSV` returns; ParsedPairsOk and ParsedPairsComplete state its properties |
| Recipes.ParseIncompatibleCsv | script.js:953-966 | the reader returns the specified pairs of the lines after the first |
| Recipes.PairRowsOk | script.js:957-964 | every pair read is well formed, and there are at most as many pairs as lines |
| Recipes.PairRowsComplete | script.js:957-964 | every line with at least two columns and two non-blank names gives its pair |
| Recipes.ParsedPairsOk | script.js:953-966 | every pair is well formed, and the first line never gives one |
| Recipes.ParsedPairsComplete | script.js:953-966 | every non-blank line after the first with at least two columns and two non-blank names gives its pair |
| Recipes.Conflicts | script.js:987-996 | the messages of the pairs whose names are both chosen; ConflictsExactly and ConflictsMonotone state its properties |
| Recipes.FindConflicts | script.js:987-996 | the loop returns the messages of the pairs whose names are both selected, in order |
| Recipes.ConflictsExactly | script.js:987-996 | a message is reported exactly when some pair has both names selected |
| Recipes.ConflictsMonotone | script.js:987-996 | at most one message per pair, and selecting more names never drops a message |
| Recipes.AliasSelectsTarget | script.js:988 | selecting an alias is the same as selecting its target |
| Recipes.MatchCount | script.js:1004 | the count is at most the number of ingredients |
| Recipes.MatchCountExtremes | script.js:1004-1005 | the count equals the length exactly when every ingredient is selected, and is zero exactly when none is |
| Recipes.CanonAll | script.js:999 | each selected name is canonicalized |
| Recipes.Score | script.js:1002-1012 | a full match means a non-empty list with every ingredient selected; a zero count means none is selected |
| Recipes.Candidates | script.js:1002-1013 | the candidates are recipes of the list, with a match and their own statistics |
| Recipes.CandidatesComplete | script.js:1002-1013 | every recipe with a match is a candidate |
| Recipes.CandidatesLength | script.js:1002-1013 | there are no more candidates than recipes |
| Recipes.PrecedesOrder | script.js:1014-1019 | the comparator is asymmetric, and its ties are exactly the equal statistics |
| Recipes.Insert | script.js:1014 | insertion adds exactly one element |
| Recipes.Sort | script.js:1014 | the sort is a permutation |
| Recipes.InsertOrdered | script.js:1014-1019 | insertion keeps a list ordered |
| Recipes.SortOrdered | script.js:1014-1019 | the sorted list is ordered by the comparator |
| Recipes.InsertOfRank | script.js:1014 | insertion adds the element to its own tie class only, at the front |
| Recipes.SortStable | script.js:1014 | every tie class keeps its original order |
| Recipes.FullMatchesFirst | script.js:1015 | in an ordered list the full matches form a prefix |
| Recipes.Take | script.js:1020 | `slice(0, n)` is a prefix of length `n`, counting from the end when `n` is negative |
| Recipes.RankedFacts | script.js:1002-1019 | the ranked list is ordered and holds only candidates |
| Recipes.RankedComplete | script.js:1002-1019 | every recipe with a match is ranked |
| Recipes.Recommend | script.js:998-1021 | `recommendRecipes`; RecommendPrefix, RecommendBounds, RecommendItems, RecommendOrdered, RecommendComplete and RecommendStable state its properties |
| Recipes.RecommendPrefix | script.js:998-1021 | the recommendations are a prefix of the ranked list, and all of it when `topN` covers the recipes |
| Recipes.RecommendBounds | script.js:1020 | at most `topN` recommendations, and no more than recipes |
| Recipes.RecommendItems | script.js:998-1021 | each recommendation is a recipe with a match and its own statistics |
| Recipes.RecommendOrdered | script.js:1013-1020 | the recommendations are ranked, with the full matches first |
| Recipes.RecommendComplete | script.js:998-1021 | when `topN` covers the list, every recipe with a match is recommended |
| Recipes.RecommendStable | script.js:1013-1020 | the ranking keeps the candidates' order within each tie |

## Left out

- The page and the DOM: `updateDisplay`, `formatNumber`, the theme switch, the button and
  keyboard dispatch, the recipe lists and the conflict highlighting
  (`highlightConflictingIngredients`, `updateConflictUI`). They only render the state the
  model computes.
- `generateRecipeName` and the random recipe button: they depend on `Math.random` and
  only produce display text.
- Evaluation. `tryEval` runs the normalized text through `Function(...)`. The model takes
  that runtime as a parameter, `Numerics.run`, which returns a value or nothing. The
  `typeof val === 'number' && isFinite(val)` test is part of that runtime returning
  nothing.
- Floating point. Values are `real`. `roundNumber`, `Math.sqrt`, `toString`, `toFixed`
  and the old calculator's arithmetic (`Arith`) are parameters, so rounding and the
  printing of numbers are not modelled.
- The `parseFloat` branch of the exponent toggle is the parameter `flip`, since it prints
  a float.
- Data loading: the `fetch` calls of `loadRecipeData` and `loadIncompatibleData`, and their
  built-in fallback data. The recipe list and the pair list are parameters of
  `recommendRecipes` and `findConflicts`.
- Recipes.Score: it compares the score `matchCount / totalStuff` by cross-multiplication.
  That agrees with the floating-point comparison except where two different ratios round to
  the same double.
- Recipes.Canonicalize: keys inherited from `Object.prototype` (e.g. `toString`) are not
  modelled, because the alias object is an object literal.
- Characters are Dafny `char`s, not UTF-16 code units. The names in use are all in the
  Basic Multilingual Plane.
- Normalizer.Normalize: the `1/(` to `1/(` replacement changes nothing and is omitted.
- The `ERROR` text. The post-fix handlers write `ERROR` to the result field. Every click
  then ends with `updateDisplay`, which writes the result field again on every path, so
  the page does not keep that text. The model records only whether the handler wrote it.
  Computing the shown preview is part of `updateDisplay`, which is left out above.
- Concurrency and timing: none in the core.
