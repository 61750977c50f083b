# Calculator with postfix evaluation — a Dafny model

This project models `Calculator` from `calc.py`, a four-stage arithmetic
expression evaluator, and proves properties of the model:

1. **Validator** (`_validate_expression`). It refuses a blank expression.
   It refuses two operator characters that are adjacent once plain spaces
   are skipped. The scan remembers the last character that is not a plain
   space, and that memory starts out as `None`. So when the first non-space
   character is an operator, the source fails with a type error, not a
   value error. The model names this failure `LeadingOperator`.
2. **Converter** (`infix_to_rpn`). This is the shunting-yard scan. A maximal
   run of digits and dots becomes one number token, with no check of its
   format. An operator first pops every operator of greater or equal
   precedence, so all operators group to the left, `^` included.
   Parentheses are matched on the stack, and whatever is left is drained at
   the end. Any other character is passed over.
3. **Evaluator** (`evaluate_rpn`). It uses an operand stack. A token that
   `_is_number` rejects takes the operator branch. A malformed literal such
   as `1.2.3` therefore pops two operands and pushes nothing. Evaluation
   succeeds only when one value is left.
4. **Entry point** (`calculate`). It runs conversion and then evaluation.
   It wraps every value error and division by zero into one calculation
   error. The type error of a leading operator is not of a kind it catches,
   so that error escapes.

The Dafny modules follow these stages:

- `Syntax` holds the operators, the precedence table, the character classes, tokens and error kinds.
- `Validation` is the validator.
- `ShuntingYard` is the converter. `ConversionProperties` relates it to definitions that do not mention its stack.
- `Postfix` is the evaluator. `EvaluationProperties` relates it to a stack-height count.
- `Calculator` is the entry point.
- `WorkedCases` computes the output and value of whole families of expressions over natural numbers.
- `Passes` states what one pass of each loop does on a known character or token. Both modules below are built from these steps.
- `Expressions` describes every expression of the calculator's grammar as a tree: number literals, the five operators and parentheses, with any run of plain spaces before or after each part. It proves that the converter outputs the tree's postfix order and that the entry point computes the tree's value.
- `SuiteCases` instantiates those families at the expressions of `test_calc.py`.
- `Sequences` holds counting helpers.

Values are exact reals. Raising to a power is a parameter `pow` of the
evaluator and the entry point. Every operation is a pure function, so
calling it twice on the same input gives the same result.

The model follows the code in these behaviours:

- The adjacency check skips only plain spaces (calc.py:25). A tab or any other character becomes the remembered character and separates two operators. `SuiteCases.TabBetweenOperators` shows the consequence.
- An expression whose first non-space character is an operator does not fail as a consecutive-operator error, and the entry point does not wrap it (calc.py:21-23, 108). `Calculator.Calculate` reports it as `Uncaught(LeadingOperator)`.
- The converter skips spaces explicitly and ignores every other unknown character, letters and other whitespace included (calc.py:65).
- A malformed literal is not a parse failure of its own. It takes the operator branch (calc.py:79-97).
- Python raises `ZeroDivisionError` for zero raised to a negative power, and the entry point catches that error. `Postfix.Apply` models this case as `DivisionByZero`.

## Model

| member | source | states |
|---|---|---|
| Syntax.OperatorOf | calc.py:5 | reading an operator character gives the operator whose symbol is that character; `Operator.Precedence` is the table's value for that key, between 1 and 3 |
| Syntax.SymbolRoundTrip | calc.py:5 | each operator's symbol is a key of the precedence table and reads back as the same operator |
| Validation.CheckAdjacency | calc.py:21-25 | the adjacency loop fails only with a leading or consecutive operator, and with a leading operator only while no non-space character has been remembered |
| Validation.CheckAdjacencySpec | calc.py:21-25 | for any remembered character, the loop fails with a leading operator iff nothing is remembered and the first non-space character is an operator; it fails with consecutive operators iff two operators are separated only by spaces, or a remembered operator is followed by one; otherwise it accepts |
| Validation.Validate | calc.py:15-25 | the validator fails with `EmptyExpression` exactly on all-whitespace input; any other failure is a leading or consecutive operator |
| Validation.ValidateSpec | calc.py:15-25 | blank iff `EmptyExpression`; non-blank and opening with an operator iff `LeadingOperator`; otherwise adjacent operators iff `ConsecutiveOperators`; accepted iff none of the three faults |
| ShuntingYard.RunLength | calc.py:41-47 | the collected literal is the longest prefix of digits and dots |
| ShuntingYard.Unstack | calc.py:59-60 | popping a segment of operators outputs each of them, top of the stack first |
| ShuntingYard.KeepBelow | calc.py:50-52 | popping stops at an open parenthesis, at an operator that binds less tightly, or at the bottom; everything popped binds at least as tightly |
| ShuntingYard.PopHigher | calc.py:49-53 | before a push, the stack keeps a prefix and the popped operators go to the output top first; they all bind at least as tightly as the new operator, and what stays on top does not |
| ShuntingYard.TopOpen | calc.py:59-61 | finds the topmost open parenthesis, above which there are only operators; nothing is found iff the stack holds no open parenthesis |
| ShuntingYard.CloseParen | calc.py:58-63 | `)` succeeds iff an open parenthesis is on the stack; it outputs the operators above the topmost one and removes that parenthesis |
| ShuntingYard.Drain | calc.py:67-70 | the final drain succeeds iff no open parenthesis is left, and then outputs the whole stack top first |
| ShuntingYard.Width | calc.py:37-65 | one pass reads a whole number literal, or else exactly one character |
| ShuntingYard.Step | calc.py:35-65 | the only failure of a pass is a `)` with no open parenthesis on the stack; otherwise the pass consumes what it read |
| ShuntingYard.Scan | calc.py:34-65 | on success the scan has consumed the whole expression; its only failure is unbalanced parentheses |
| ShuntingYard.Convert | calc.py:30-72 | the conversion of a validated expression fails only with unbalanced parentheses |
| ShuntingYard.InfixToRpn | calc.py:27-72 | a validator failure is passed on unchanged; after validation the result is either success or unbalanced parentheses |
| ConversionProperties.Runs | calc.py:41-47 | the reference list of maximal runs holds only non-empty digit/dot strings |
| ConversionProperties.UnstackContents | calc.py:59-60 | popped operators add no number and no parenthesis to the output, and each operator as often as it was on the stack |
| ConversionProperties.StepNumbers | calc.py:35-65 | one pass keeps the output's literals followed by the unread runs unchanged |
| ConversionProperties.ScanNumbers | calc.py:34-65 | the scan appends exactly the maximal runs of the unread input to the output's literals, in input order |
| ConversionProperties.StepOperators | calc.py:35-65 | one pass keeps, for each operator, the total of its copies in the output, on the stack and in the unread input |
| ConversionProperties.ScanOperators | calc.py:34-65 | the whole scan keeps that total for each operator |
| ConversionProperties.CloseOpens | calc.py:58-63 | closing fails iff no parenthesis is open, and otherwise removes exactly one open parenthesis from the stack |
| ConversionProperties.CloseParens | calc.py:58-63 | a pass reading `)` fails iff no parenthesis is open, and otherwise lowers the open count by one |
| ConversionProperties.PushParens | calc.py:49-53 | a pass reading an operator never fails and never pops an open parenthesis |
| ConversionProperties.StepParens | calc.py:35-65 | a pass fails iff what it reads takes the parenthesis depth below zero; otherwise the stack's open count follows that depth |
| ConversionProperties.ScanParens | calc.py:34-65 | the scan succeeds iff no prefix of the unread input closes more parentheses than are open; on success the open count grows by the input's depth |
| ConversionProperties.ConvertBalance | calc.py:58-70 | the conversion succeeds iff every `)` closes an earlier `(` and every `(` is closed |
| ConversionProperties.ConvertOperators | calc.py:49-53 | on success each operator appears in the output exactly as often as in the input |
| ConversionProperties.ConvertNumbers | calc.py:41-47 | on success the output's literals are the maximal digit/dot runs of the input, in input order |
| ConversionProperties.ConvertSpec | calc.py:30-72 | success iff balanced, and otherwise unbalanced parentheses; on success: the runs in order, the input's operators as a multiset, no other tokens, and every literal is a digit/dot run |
| ConversionProperties.InfixToRpnSpec | calc.py:27-72 | the converter succeeds iff the expression is non-blank, does not open with an operator, has no adjacent operators and is balanced; otherwise it names the first of these faults that applies |
| Postfix.IsNumeric | calc.py:7-13 | a literal the evaluator reads is a non-empty run of digits and dots that holds a digit |
| Postfix.DecimalValue | calc.py:80 | a literal's value is never negative, and a string of digits is worth its base-ten reading |
| Postfix.DecimalValueShift | calc.py:80 | a literal with a dot, with its decimal point moved right past every digit after the dot, is worth its digits read in base ten with the dot taken out, so `2.5` is worth 25 tenths |
| Postfix.DigitsValueConcat | calc.py:80 | reading two digit strings written one after the other gives the first shifted left by the length of the second, plus the second |
| Postfix.Apply | calc.py:86-97 | an operator fails iff it divides by zero or raises zero to a negative power, and then with `DivisionByZero`; `*` gives the product; the results of `+`, `-` and `/` give back `a` under the inverse operation; `^` is `pow` |
| Postfix.EvalStep | calc.py:79-97 | a token fails for want of operands iff the stack is shorter than the token takes; only `/` and `^` can fail otherwise; on success the stack below the operands is untouched, a number pushes its value, and an operator pushes its result |
| Postfix.Run | calc.py:78-97 | the loop fails only for want of operands or by division by zero |
| Postfix.Evaluate | calc.py:74-101 | a failure of the loop is passed on; when the loop ends with exactly one value, that value is the result; any other final stack is `InvalidExpression` |
| EvaluationProperties.NumericShape | calc.py:7-13 | a literal the evaluator reads is made of digits and dots, with at most one dot and at least one digit |
| EvaluationProperties.ShapeNumeric | calc.py:7-13 | every such string is a literal the evaluator reads |
| EvaluationProperties.IsNumericSpec | calc.py:7-13 | the literals the evaluator reads are exactly the digit/dot strings with at most one dot and at least one digit |
| EvaluationProperties.NatText | calc.py:80 | the decimal spelling of a natural number is a non-empty string of digits |
| EvaluationProperties.NatTextRoundTrip | calc.py:80 | reading the spelling of a natural number in base ten gives the number back |
| EvaluationProperties.NatTextValue | calc.py:80 | the spelling of a natural number is a literal whose value is that number |
| EvaluationProperties.RunShape | calc.py:78-97 | the loop's shortage of operands happens exactly where the stack-height count has one; on success the stack is as high as the count says; without division, success iff no shortage |
| EvaluationProperties.StepFrame | calc.py:79-97 | one pass works the same on top of any deeper values and leaves them alone |
| EvaluationProperties.RunFrame | calc.py:78-97 | a successful loop works the same on top of any deeper values and leaves them alone |
| EvaluationProperties.RunConcat | calc.py:78-97 | evaluating two token sequences in a row evaluates the second from where the first left the stack |
| EvaluationProperties.EvaluateSpec | calc.py:74-101 | success implies no shortage and a final height of one; conversely, a successful loop with a final count of one gives the single value; `InvalidExpression` iff the loop succeeds with a height other than one; without division, success iff no shortage and height one |
| Calculator.Calculate | calc.py:103-109 | only the leading-operator failure escapes; every other conversion failure and every evaluation failure is wrapped with its cause; a value comes only from a successful conversion and evaluation |
| Calculator.CalculateSpec | calc.py:103-109 | the entry point reports a blank input, a leading operator, adjacent operators and unbalanced parentheses each exactly when the text has that fault; a value implies a well-formed text whose postfix form reduces to one value |
| WorkedCases.ValidateDoubled | calc.py:23-24 | `x o p y`, with two operators separated by a space, fails with `ConsecutiveOperators` |
| WorkedCases.RpnBinary | calc.py:27-72 | `x o y` becomes `x y o` |
| WorkedCases.RpnChain | calc.py:49-53 | `x o1 y o2 z` outputs `o1` before `z` when `o1` binds at least as tightly as `o2`, so equal precedence groups to the left; otherwise it outputs `x y z o2 o1` |
| WorkedCases.RpnGrouped | calc.py:55-63 | `(x o1 y) o2 z` becomes `x y o1 z o2`, whatever the precedences |
| WorkedCases.RpnUnclosed | calc.py:67-69 | `(x o y` passes the validator and fails as unbalanced at the final drain |
| WorkedCases.RpnStrayClose | calc.py:58-62 | `x o )y` passes the validator and fails as unbalanced at the `)` |
| WorkedCases.EvaluateBinary | calc.py:78-101 | `x y o` evaluates to `o` applied to the two literals' values |
| WorkedCases.EvaluateLeft | calc.py:78-101 | in `x y o1 z o2`, the result of `o1` is the left operand of `o2` |
| WorkedCases.EvaluateRight | calc.py:78-101 | in `x y z o2 o1`, the result of `o2` is the right operand of `o1` |
| WorkedCases.CalculateBinary | calc.py:103-109 | `a o b` over natural numbers is worth `a o b`, or fails as the operator does |
| WorkedCases.CalculateChain | calc.py:49-53 | `a o1 b o2 c` is worth `(a o1 b) o2 c` when `o1` binds at least as tightly as `o2`, and `a o1 (b o2 c)` otherwise |
| WorkedCases.CalculateGrouped | calc.py:55-63 | `(a o1 b) o2 c` is worth `(a o1 b) o2 c` whatever the precedences |
| WorkedCases.ValidateHidden | calc.py:25 | a foreign character (not a space, digit, dot, operator or parenthesis) between two operators replaces the remembered operator, so the validator accepts |
| WorkedCases.ConvertHidden | calc.py:49-65 | the converter passes over the foreign character; `x o c p y` becomes `x o y p` when `o` binds at least as tightly as `p`, and `x y p o` otherwise |
| WorkedCases.CalculateHidden | calc.py:21-25 | such an expression gets past the validator and fails in the evaluator: with division by zero when `p` binds more tightly than `o` and `x p y` divides by zero, and otherwise for want of an operand |
| SuiteCases.TwoPlusTwo | test_calc.py:10 | `2 + 2` is 4 |
| SuiteCases.FiveMinusThree | test_calc.py:11 | `5 - 3` is 2 |
| SuiteCases.FourTimesThree | test_calc.py:12 | `4 * 3` is 12 |
| SuiteCases.TenOverTwo | test_calc.py:13 | `10 / 2` is 5 |
| SuiteCases.ProductFirst | test_calc.py:16 | `2 + 3 * 4` is 14 |
| SuiteCases.GroupFirst | test_calc.py:17 | `(2 + 3) * 4` is 20 |
| SuiteCases.FiveOverZero | test_calc.py:20-21 | `5 / 0` is a calculation error caused by division by zero |
| SuiteCases.EmptyInput | test_calc.py:24-25 | the empty expression is a calculation error caused by `EmptyExpression` |
| SuiteCases.BlankInput | calc.py:17-18 | an expression of spaces is a calculation error caused by `EmptyExpression` |
| SuiteCases.DoubledOperator | test_calc.py:26-27 | `2 + + 3` is a calculation error caused by consecutive operators |
| SuiteCases.UnclosedParen | test_calc.py:28-29 | `(2 + 3` is a calculation error caused by unbalanced parentheses |
| SuiteCases.UnopenedParen | test_calc.py:30-31 | `2 + )3` is a calculation error caused by unbalanced parentheses |
| SuiteCases.TwoCubed | test_calc.py:34 | `2 ^ 3` is 8 when `pow(2, 3)` is 8 |
| SuiteCases.PowerFirst | test_calc.py:35 | `2 + 3 ^ 2` is 11 when `pow(3, 2)` is 9 |
| SuiteCases.PowersGroupLeft | calc.py:50-51 | `2 ^ 3 ^ 2` is `pow(pow(2, 3), 2)`, grouped to the left |
| SuiteCases.LeadingSign | calc.py:21-23 | `+ 2` is not a calculation error: the leading-operator failure escapes the entry point |
| SuiteCases.TabBetweenOperators | calc.py:25 | `2 + \t+ 3` passes the validator and is a calculation error caused by a shortage of operands |
| SuiteCases.TabBeforeDivision | calc.py:25 | `2 + \t/ 0` passes the validator and is a calculation error caused by division by zero |
| SuiteCases.SpacingIgnored | calc.py:37-39 | `(2  +  3)*4`, with no spaces around `*` and two around `+`, is 20, as with single spaces |
| SuiteCases.HalfTimesFour | calc.py:80 | `2.5*4` is 10: the digits after the dot are read as a fraction |
| Passes.CheckRun | calc.py:21-25 | the adjacency loop passes over a run of digits and dots and then remembers its last character |
| Passes.CheckSpaces | calc.py:25 | the adjacency loop passes over plain spaces and keeps what it remembered |
| Passes.CheckOperator | calc.py:23-25 | an operator after a remembered character that is not an operator passes, and is remembered in its place |
| Passes.RunLengthRun | calc.py:41-47 | the literal collected at a run of digits and dots followed by another character is the whole run |
| Passes.ScanNumber | calc.py:41-47 | such a run becomes one number token at the end of the output |
| Passes.ScanSpaces | calc.py:37-39 | the scan passes over plain spaces and leaves the output and the stack alone |
| Passes.ScanOperator | calc.py:49-53 | an operator pops what binds at least as tightly, down to an open parenthesis, and is then pushed |
| Passes.ScanOpen | calc.py:55-56 | `(` is pushed and nothing is output |
| Expressions.Eval | calc.py:78-97 | a tree's value fails only by division by zero |
| Expressions.SpellEnds | calc.py:17-25 | the text of a tree contains its last character other than a space, which is a digit, a dot or `)`; so the text is never blank and never ends the validator's memory on an operator |
| Expressions.CheckSpell | calc.py:21-25 | reading a tree's text leaves the validator remembering the text's last character, which is not an operator, and finds no fault inside the text |
| Expressions.ValidateSpell | calc.py:15-25 | the validator accepts the text of every tree |
| Expressions.WaitingParts | calc.py:49-53 | the operators of a tree left on the stack bind at least as tightly as the tree's top, and popping them completes the tree's postfix order |
| Expressions.KeepGuarded | calc.py:50-52 | an operator pops exactly the segment above a stack top it does not pop |
| Expressions.PopAbove | calc.py:49-53 | such a segment goes to the output top first, and the stack below it is kept |
| Expressions.CloseGroup | calc.py:58-63 | `)` over a segment of operators above `(` outputs the segment top first and removes the `(` |
| Expressions.ScanSpell | calc.py:34-65 | reading a tree's text, on a stack the tree's operators do not pop, outputs all of the tree's postfix order except the operators on its right edge, and leaves those on the stack |
| Expressions.ScanSpellBin | calc.py:49-53 | for `l op r`: `op` pops what `l` left waiting and then waits above the stack for `r` |
| Expressions.ScanSpellGroup | calc.py:55-63 | for `(i)`: `(` shields the stack below, and `)` outputs what `i` left waiting |
| Expressions.ScanSpellPad | calc.py:37-39 | spaces before and after a tree are passed over: the scan of the padded text ends where the scan of the bare text does |
| Expressions.ConvertSpell | calc.py:30-72 | the converter turns the text of every tree into that tree's postfix order |
| Expressions.InfixToRpnSpell | calc.py:27-72 | validation followed by conversion turns the text of every tree into that tree's postfix order |
| Expressions.RunPostfix | calc.py:78-97 | the loop over a tree's postfix order pushes the tree's value on any stack, or fails as the value does |
| Expressions.EvaluatePostfix | calc.py:74-101 | the evaluator computes the value of every tree from its postfix order |
| Expressions.CalculateSpell | calc.py:103-109 | the entry point on the text of every tree with readable literals gives the tree's value, or a calculation error caused by division by zero |

## Left out

- IEEE-754 floating point is not modelled. Values are exact reals, so rounding, infinities and NaN do not arise.
- Python's `**` is not modelled beyond one case: zero raised to a negative power, which raises `ZeroDivisionError`. Every other power is `Value(pow(a, b))` for the parameter `pow`. Two outcomes of Python are therefore not modelled: the complex result of a negative base raised to a fractional exponent, and `OverflowError`, which the entry point would not catch.
- `float()` is abstracted as "digits and dots, at most one dot, at least one digit" (calc.py:7-13). Its other accepted forms are not modelled: signs, exponents, `inf`/`nan`, underscores and surrounding whitespace. The converter never produces these forms.
- Digits are ASCII `0`-`9` only. Python's `str.isdigit` also accepts other Unicode digits.
- `Postfix.Evaluate` takes tokens, not strings. A `Num` token whose text spells an operator would be read as a malformed literal, but the converter never produces one.
- Error messages, both the Russian texts and the wrapping prefix, are replaced by the error kinds they report.
- The `unittest` test class of `test_calc.py` is not modelled. Its expressions appear as the lemmas of `SuiteCases`.
- The `^` cases of `SuiteCases` take the values of `pow(2, 3)` and `pow(3, 2)` as preconditions, because `pow` is a parameter.
- ConversionProperties.ConvertSpec: states the output's literals in input order and its operators as a multiset, not the operators' order. The order is stated by `Expressions.InfixToRpnSpell` for the text of every expression tree, with any runs of plain spaces. Text holding characters the converter ignores, such as tabs or letters, has no such tree, so for it no order is stated.
- ConversionProperties.InfixToRpnSpec: states no order of the operators in its output, for the same reason.
- Expressions.CalculateSpell: covers the text of every tree whose literals the evaluator reads, with any runs of plain spaces. No value is stated in general for text holding characters the converter ignores, such as tabs or letters; the worked families `ValidateHidden`, `ConvertHidden` and `CalculateHidden` cover one such character between two operators.
