# ExpressionParser in Dafny

A model of the evaluator core of `com.logicalbias.parser`, which evaluates
arithmetic expressions. It covers these stages:

1. **Negative-literal repair.** `Tokenizer.fixNegativeOperators` repairs the
   lexed token list in place. A number followed by a negative number becomes
   number, `-`, positive number.
2. **Sanity check.** `ExpressionParser.tokenize` rejects two numbers side by
   side.
3. **Shunting yard.** `ExpressionParser.shuntingYard` turns the infix tokens
   into reverse Polish notation (RPN). It uses an operator stack and an output
   queue.
4. **Evaluation.** `ExpressionParser.evaluate(List)` evaluates the RPN list on
   an operand stack.
5. **The whole pipeline.** `ExpressionParser.evaluate(String)` runs the stages
   above in order.

It also models:

- the static tables of functions, operators and constants, and their lookups;
- `Function` and `Operator`, with their getters, `equals` and `hashCode`;
- the accumulator loop of `FactorialOperator.apply`.

`FactorialOperator.apply` multiplies its argument a by every integer counter
value i from 2 while `i < a`. So a fractional argument is multiplied up to its
ceiling minus one: 3.5 gives 3.5 · 2 · 3 = 21. Arguments up to 2 come back
unchanged (`PassThrough`), so 0 gives 0.

How the model is written:

- **Tokens are strings.** Whether a token is a number follows the grammar
  `Double.parseDouble` accepts for the forms the lexer produces. This lives in
  module `NumberSyntax`.
- **Stacks are sequences.** A `java.util.Stack` is a sequence whose top is its
  last element. The `LinkedList` operand stack is a sequence whose top is its
  first element.
- **Exceptions are values.** Each thrown exception becomes an `Err` value,
  with one `Error` constructor per throw site or library exception. For
  example, `EmptyStack` stands for `peek` on an empty `Stack`, and
  `NoSuchElement` for `pop` on an empty `LinkedList`.
- **Values are a parameter.** Operand values are a type parameter `V`. A
  `Semantics<V>` gives what `Double.parseDouble`, the constants and each
  callable's `apply` compute. Everything the evaluator itself decides is proved
  for every semantics: which token does what, how many values it takes, in
  which order, and when it fails.
- **Trees as values.** One semantics builds expression trees. With it, parsing
  a printed tree gives the tree back, and concrete inputs show the grouping
  (`RoundTrip`, `Scenarios`).
- **Imperative code stays imperative.** The loops of the source are methods
  with loops, each proved equal to a specification function:
  - `FixNegativeOperators` edits a `TokenList` object in place.
  - `Tokenize`, `ShuntingYard`, `PopAndApply` and `EvaluateRpn` are loops.
  - `PopAndApply` fills an `args` array from its last slot down.
  - `FactorialOperator.Apply` is the accumulator loop.

  Lemmas then state the properties of those functions.

Sources are cited by path relative to the repository root, with line numbers.

## Model

| member | source | states |
|---|---|---|
| Tokenizer.FixNegativeOperators | src/main/java/com/logicalbias/parser/Tokenizer.java:47-68 | The list object is edited in place and the same object is returned. Its new contents are `Repaired` of its old contents, even though the loop bound is re-read while tokens are inserted. |
| Tokenizer.SplitStep | src/main/java/com/logicalbias/parser/Tokenizer.java:54-62 | Rewriting a number followed by a negative number puts `-` between them and strips the sign. This keeps the loop's "repaired up to i" invariant. |
| Tokenizer.KeepStep | src/main/java/com/logicalbias/parser/Tokenizer.java:52-54 | A pair that is not a number followed by a negative number is left alone, and the invariant still holds at i + 1. |
| Tokenizer.RepairedSnoc | src/main/java/com/logicalbias/parser/Tokenizer.java:48-63 | Appending a token to the input appends exactly its piece to the output. The token is kept as it is, or split into `-` and its unsigned text. Only it and the ORIGINAL token before it decide which; original order is kept. |
| Tokenizer.RepairAfterSnoc | src/main/java/com/logicalbias/parser/Tokenizer.java:48-63 | The same for the rest of the list after a given token. |
| Tokenizer.RepairedLength | src/main/java/com/logicalbias/parser/Tokenizer.java:59-62 | The output length is the input length plus the number of negative pairs in the original list. |
| Tokenizer.RepairAfterLength | src/main/java/com/logicalbias/parser/Tokenizer.java:59-62 | The same for the rest of the list after a given token. |
| Tokenizer.RepairedHasNoNegativePair | src/main/java/com/logicalbias/parser/Tokenizer.java:48-65 | Afterwards no number is followed by a number that starts with `-`. |
| Tokenizer.RepairAfterLeavesNoNegativePair | src/main/java/com/logicalbias/parser/Tokenizer.java:48-65 | The same for the rest of the list after a given token. |
| Tokenizer.RepairedIdentity | src/main/java/com/logicalbias/parser/Tokenizer.java:52-54 | A list with no such pair is returned unchanged. |
| Tokenizer.RepairedIdempotent | src/main/java/com/logicalbias/parser/Tokenizer.java:47-68 | Repairing twice gives the same list as repairing once. |
| NumberSyntax.StripMinus | src/main/java/com/logicalbias/parser/Tokenizer.java:54-56 | A negative number with its first character removed is a number, and it does not start with `-`. |
| NumberSyntax.NumberStart | src/main/java/com/logicalbias/parser/ExpressionParser.java:269-278 | `IsNumber` models both `isNumber` methods (ExpressionParser.java:269-278 and Tokenizer.java:70-79). A number token starts with a digit, a sign, a point, `I` or `N`. A one-character number is a digit. |
| ExpressionParser.CheckFrom | src/main/java/com/logicalbias/parser/ExpressionParser.java:136-151 | The check passes exactly when no two adjacent tokens are both numbers. On success it returns the list unchanged. |
| ExpressionParser.CheckFromRejects | src/main/java/com/logicalbias/parser/ExpressionParser.java:136-143 | A failure names the first pair of adjacent numbers. |
| ExpressionParser.Tokenize | src/main/java/com/logicalbias/parser/ExpressionParser.java:130-152 | tokenize as written: in-place repair, then a scan of adjacent pairs. It returns exactly `Tokenized(lexed)`. |
| ExpressionParser.TokenizedRejectsOnlyNonNegativePairs | src/main/java/com/logicalbias/parser/ExpressionParser.java:136-151 | tokenize succeeds exactly when the repaired list has no two adjacent numbers. On success it returns the repaired list. On failure it names two numbers, and the right-hand one is not negative. |
| ExpressionParser.TokenizedUnchanged | src/main/java/com/logicalbias/parser/ExpressionParser.java:136-151 | A list with no two adjacent numbers passes through tokenize untouched. |
| ExpressionParser.Evaluate | src/main/java/com/logicalbias/parser/ExpressionParser.java:60-71 | evaluate(String) is tokenize, then shuntingYard, then evaluate(List). The first error is returned. |
| Registry.Lookup | src/main/java/com/logicalbias/parser/ExpressionParser.java:245-259 | The callable a registered token names carries that token. It is an Operator exactly when the token is in the operator table. |
| Registry.ArityOf | src/main/java/com/logicalbias/parser/ExpressionParser.java:36-49 | A registered callable takes 1 or 2 arguments: its `numberOfArguments`. |
| Registry.Disjoint | src/main/java/com/logicalbias/parser/ExpressionParser.java:245-286 | About the lookups `IsFunction`, `IsOperator`, `IsConstant`, `IsNumber` and `IsGroupingOperator`. Functions, operators, numbers and constants do not overlap. None of them is `(`, `)` or `,`. |
| Registry.OperatorRanks | src/main/java/com/logicalbias/parser/ExpressionParser.java:43-49 | About `PrecedenceOf` and `IsLeftAssociative`, which read `getPrecedence` and `isLeftAssociative` (Operator.java:20-26, modelled by the `precedence` field and `Callable.IsLeftAssociative`). Precedences: `+ -` are 1, `* / %` are 3, `^` is 5 and `!` is 7. Only `^` and `!` are right-associative, and only `!` is unary. |
| Functions.Equals | src/main/java/com/logicalbias/parser/functions/Function.java:31-42 | `equals` is true exactly for a Function (an Operator included) with the same token, where two null tokens count as the same. |
| Functions.EqualsIsEquivalence | src/main/java/com/logicalbias/parser/functions/Function.java:31-42 | `equals` is reflexive, symmetric and transitive. It is false for null and for non-Functions. |
| Functions.EqualsIgnoresArity | src/main/java/com/logicalbias/parser/functions/Function.java:31-42 | A Function and an Operator with the same token are equal whatever their arities. So are two Functions that differ only in arity. |
| Functions.HashCode | src/main/java/com/logicalbias/parser/functions/Function.java:23-29 | `hashCode` is `31 * 1 + hash(token)` in int arithmetic, so 31 for a null token. It is always a Java int. |
| Functions.EqualsAgreesWithHashCode | src/main/java/com/logicalbias/parser/functions/Function.java:23-42 | Equal callables have equal hash codes. |
| Functions.PlusHashCode | src/main/java/com/logicalbias/parser/functions/Function.java:24-29 | The `+` operator hashes to 31 + 43. |
| ShuntingYard.PopOperators | src/main/java/com/logicalbias/parser/ExpressionParser.java:178-188 | The inner loop for an operator removes a top segment of the stack. It appends that segment to the output, topmost first. |
| ShuntingYard.PopOperatorsStops | src/main/java/com/logicalbias/parser/ExpressionParser.java:178-188 | `Pops(o1, o2)` is the condition at lines 180-181. Every entry popped is an operator that the incoming one pops by the precedence and associativity rule. The loop stops at the bottom of the stack, at a non-operator (such as `(` or a function), or at an operator it does not pop. |
| ShuntingYard.OperatorPops | src/main/java/com/logicalbias/parser/ExpressionParser.java:171-191 | An operator step never fails. It moves the longest run of operators it outranks from the top of the stack to the output, topmost first, and is pushed in their place. The entry below that run, if any, is not an operator it outranks. |
| ShuntingYard.PopWhileNotLeftParen | src/main/java/com/logicalbias/parser/ExpressionParser.java:196-203 | The unwinding loop stops with `(` on top of a prefix of the stack. Emptying the stack gives the given error. |
| ShuntingYard.PopWhileNotLeftParenSucceeds | src/main/java/com/logicalbias/parser/ExpressionParser.java:213-220 | The unwinding loop succeeds exactly when the stack holds a `(`, and it stops at the topmost one. |
| ShuntingYard.PopWhileNotLeftParenOutput | src/main/java/com/logicalbias/parser/ExpressionParser.java:213-220 | Everything above that `(` goes to the output, topmost first. |
| ShuntingYard.PopToLeftParen | src/main/java/com/logicalbias/parser/ExpressionParser.java:196 | The same loop entered by `peek`. On an empty stack it fails with `EmptyStack` first. |
| ShuntingYard.PopToTopmostLeftParen | src/main/java/com/logicalbias/parser/ExpressionParser.java:196-203 | If position i holds the topmost `(`, the unwinding loop keeps the stack up to and including position i. Everything above i goes to the output, topmost first. |
| ShuntingYard.StepFails | src/main/java/com/logicalbias/parser/ExpressionParser.java:164-229 | An iteration of the main loop fails exactly on a `,` or a `)` when no `(` is on the stack. An empty stack gives `EmptyStack` from `peek`. Otherwise `,` gives `MismatchedParenthesesOrComma` and `)` gives `MismatchedParentheses`. |
| ShuntingYard.SeparatorUnwinds | src/main/java/com/logicalbias/parser/ExpressionParser.java:192-204 | With the topmost `(` at position i, `,` moves everything above i to the output, topmost first, and leaves the `(` on top. |
| ShuntingYard.RightParenCloses | src/main/java/com/logicalbias/parser/ExpressionParser.java:208-229 | With the topmost `(` at position i, `)` moves everything above i to the output, topmost first, and discards the `(`. If the entry below it is a function, that function follows to the output (`CloseParen`, lines 222-228); otherwise the stack ends at i − 1. |
| ShuntingYard.Drain | src/main/java/com/logicalbias/parser/ExpressionParser.java:232-240 | The final loop emits the stack topmost first. It fails exactly when a parenthesis is left on the stack. |
| ShuntingYard.ShuntingYard | src/main/java/com/logicalbias/parser/ExpressionParser.java:160-243 | shuntingYard as written, with a Stack and an output queue. It returns exactly `ToRpn(tokens)`. |
| ShuntingYard.ToRpnSkipsUnrecognised | src/main/java/com/logicalbias/parser/ExpressionParser.java:164-230 | A token of no recognised kind is skipped: converting the list is converting its recognised tokens. |
| ShuntingYard.RunSkipsUnrecognised | src/main/java/com/logicalbias/parser/ExpressionParser.java:164-230 | The same from any intermediate state. |
| ShuntingYard.ToRpnKeepsTokens | src/main/java/com/logicalbias/parser/ExpressionParser.java:164-240 | A successful output has no parenthesis and no comma. Its functions and operators are those of the input, each exactly once. Its numbers and constants are those of the input, in input order. |
| ShuntingYard.StepAccounted | src/main/java/com/logicalbias/parser/ExpressionParser.java:164-229 | Each iteration keeps the bookkeeping invariant: every callable read is on the stack or in the output, and every operand read is in the output. |
| ShuntingYard.DrainAccounted | src/main/java/com/logicalbias/parser/ExpressionParser.java:232-240 | The final loop keeps the bookkeeping invariant. |
| Evaluator.Arguments | src/main/java/com/logicalbias/parser/ExpressionParser.java:105-109 | A callable of arity k gets the k topmost values, deepest first: `args[0]` is the original left operand. |
| Evaluator.EvalToken | src/main/java/com/logicalbias/parser/ExpressionParser.java:81-116 | A number or constant pushes one value. A callable of arity k needs k values and replaces them with one result, so the stack changes by 1 − k. A callable with too few values fails with `NoSuchElement`; anything else fails with `InvalidToken`. |
| Evaluator.Single | src/main/java/com/logicalbias/parser/ExpressionParser.java:119-124 | After the scan, exactly one value is the result. More than one is `MultipleValues`; none is `NoSuchElement`. |
| Evaluator.PopArguments | src/main/java/com/logicalbias/parser/ExpressionParser.java:105-109 | The countdown loop fills an array of `numArgs` slots from its last slot down. It succeeds exactly when the stack holds at least `numArgs` values. It then yields `Arguments` (the topmost values, deepest first) and the stack below them. |
| Evaluator.PopAndApply | src/main/java/com/logicalbias/parser/ExpressionParser.java:102-116 | Pops the callable's arguments (`PopArguments`), applies the callable and pushes the value. This is exactly `EvalToken`, failure included. |
| Evaluator.EvaluateRpn | src/main/java/com/logicalbias/parser/ExpressionParser.java:77-125 | evaluate(List) as written. It returns exactly `RpnValue(rpn)`. |
| Evaluator.EvalRpnHeight | src/main/java/com/logicalbias/parser/ExpressionParser.java:91-116 | Success, and the final stack height, depend only on the kinds of the tokens, never on the values. |
| Evaluator.RpnValueSucceeds | src/main/java/com/logicalbias/parser/ExpressionParser.java:77-125 | evaluate(List) succeeds exactly on lists that leave a stack of height 1. |
| FactorialOperator.LoopEnd | src/main/java/com/logicalbias/parser/operators/FactorialOperator.java:13 | `i < a` first fails at 2 when a ≤ 2. Otherwise it fails at the least integer at or above a. |
| FactorialOperator.Apply | src/main/java/com/logicalbias/parser/operators/FactorialOperator.java:10-16 | The loop returns a · 2 · 3 · … · (LoopEnd(a) − 1). Invariant: at counter i the value is a · (2 · … · (i − 1)). The counter is unbounded, which is the corrected loop of "Findings". |
| FactorialOperator.CounterStaysBelow | src/main/java/com/logicalbias/parser/operators/FactorialOperator.java:13 | The source's `int` counter reaches `Integer.MAX_VALUE` after MAX_VALUE − 2 increments and wraps to `Integer.MIN_VALUE` on the next. For an argument above `Integer.MAX_VALUE`, every counter value is below the argument, so `i < a` never fails. |
| FactorialOperator.PassThrough | src/main/java/com/logicalbias/parser/operators/FactorialOperator.java:11-16 | For a ≤ 2 the argument comes back unchanged: negatives, 0, 1, 2 and fractions up to 2. |
| FactorialOperator.IntegerFactorial | src/main/java/com/logicalbias/parser/operators/FactorialOperator.java:11-16 | On an integer n ≥ 1 the result is n!. |
| FactorialOperator.Recurrence | src/main/java/com/logicalbias/parser/operators/FactorialOperator.java:12-15 | On integers n ≥ 1, f(n + 1) = (n + 1) · f(n). |
| FactorialOperator.Fractional | src/main/java/com/logicalbias/parser/operators/FactorialOperator.java:13-14 | A fractional argument is multiplied by every integer from 2 up to its ceiling minus one: 3.5 gives 21. |
| RoundTrip.PrintHasNoAdjacentNumbers | src/main/java/com/logicalbias/parser/ExpressionParser.java:136-149 | A fully parenthesised expression never has two numbers side by side. |
| RoundTrip.TokenizePrint | src/main/java/com/logicalbias/parser/ExpressionParser.java:130-152 | tokenize returns such an expression unchanged. |
| RoundTrip.ShuntPrint | src/main/java/com/logicalbias/parser/ExpressionParser.java:164-229 | From any state whose top is not a function, the loop appends exactly the postfix form of the expression to the output and leaves the stack as it was. |
| RoundTrip.ToRpnPrint | src/main/java/com/logicalbias/parser/ExpressionParser.java:160-243 | shuntingYard of the printed expression is its postfix form. |
| RoundTrip.EvalPostfix | src/main/java/com/logicalbias/parser/ExpressionParser.java:81-117 | Evaluating the postfix form pushes exactly the expression's value, with arguments in left-to-right order. |
| RoundTrip.RpnValuePostfix | src/main/java/com/logicalbias/parser/ExpressionParser.java:77-125 | evaluate(List) of the postfix form is the expression's value. |
| RoundTrip.EvaluatePrint | src/main/java/com/logicalbias/parser/ExpressionParser.java:60-71 | evaluate(String) of a printed expression is its value, under every semantics. |
| RoundTrip.ParsePrint | src/main/java/com/logicalbias/parser/ExpressionParser.java:60-71 | With the tree semantics, parsing a printed expression gives back the expression. |
| Scenarios.LeftAssociativeRpn | src/main/java/com/logicalbias/parser/ExpressionParser.java:178-190 | `a - b - c` becomes `a b - c -`, as `[8,-,3,-,2]` becomes `[8,3,-,2,-]`. |
| Scenarios.RightAssociativeRpn | src/main/java/com/logicalbias/parser/ExpressionParser.java:178-190 | `a ^ b ^ c` becomes `a b c ^ ^`, as `[2,^,3,^,2]` becomes `[2,3,2,^,^]`. |
| Scenarios.PrecedenceRpn | src/main/java/com/logicalbias/parser/ExpressionParser.java:178-190 | `a + b * c` becomes `a b c * +`. |
| Scenarios.FactorialRpn | src/main/java/com/logicalbias/parser/ExpressionParser.java:178-190 | `a ! * b` becomes `a ! b *`, as `[5,!,*,2]` becomes `[5,!,2,*]`. |
| Scenarios.FunctionCallRpn | src/main/java/com/logicalbias/parser/ExpressionParser.java:192-229 | `max ( a , b )` becomes `a b max`. |
| Scenarios.LeftAssociativeTree | src/main/java/com/logicalbias/parser/ExpressionParser.java:60-71 | `a - b - c` parses to `(a - b) - c`. |
| Scenarios.RightAssociativeTree | src/main/java/com/logicalbias/parser/ExpressionParser.java:60-71 | `a ^ b ^ c` parses to `a ^ (b ^ c)`. |
| Scenarios.NegativeLiteralRepair | src/main/java/com/logicalbias/parser/Tokenizer.java:52-62 | The lexed pair `a -b` is read as `a - b`. Two numbers without a sign between them are rejected, naming both. |
| Scenarios.NoRepairAfterParenthesis | src/main/java/com/logicalbias/parser/Tokenizer.java:52 | After `)` a negative number is not split. `( a ) -b` passes tokenize unchanged, and evaluation fails with two values left. |
| Scenarios.UnclosedParenthesis | src/main/java/com/logicalbias/parser/ExpressionParser.java:232-237 | `( a` fails with mismatched parentheses when the stack is drained. |
| Scenarios.SeparatorOutsideCall | src/main/java/com/logicalbias/parser/ExpressionParser.java:192-196 | `a , b` fails when `peek` finds the stack empty. |
| Scenarios.UnopenedParenthesis | src/main/java/com/logicalbias/parser/ExpressionParser.java:208-219 | In `a + b )`, the `)` pops `+`, runs out of stack and fails with mismatched parentheses. |
| Scenarios.TwoValuesLeft | src/main/java/com/logicalbias/parser/ExpressionParser.java:120-122 | `a b` leaves two values, which is an error. |
| Scenarios.EvaluationFailures | src/main/java/com/logicalbias/parser/ExpressionParser.java:98-124 | Evaluation fails on each of: an operator with no operands, two values left, an empty list, and an unknown token. |

## Left out

- Lexing. `Tokenizer.tokenize` (Tokenizer.java:11-36) runs `java.io.StreamTokenizer`, with lower-casing and number scanning. The model starts from the lexed token list. Only the repair call at line 37 is modelled.
- `Double.parseDouble`. `IsNumber` covers: an optional sign, then `Infinity`, `NaN`, or a decimal literal with an optional exponent. That covers what the lexer hands over. Hexadecimal floats, `d`/`f` suffixes and surrounding whitespace are not modelled.
- Floating-point arithmetic. The operator and function bodies (`Math.pow`, `Math.max`, and so on) and the values of `Math.PI` and `Math.E` are fields of `Semantics`, left open.
- `FactorialOperator.Apply`: works on exact reals, so NaN, infinities and rounding are not modelled.
- `FactorialOperator.Apply`: its counter is an unbounded integer. Above `Integer.MAX_VALUE` the source's `int` counter wraps around and the loop never ends (see "Findings"). The model returns the product the loop was meant to compute.
- Debug printing at ExpressionParser.java:66 and :133. Also `Function.toString` and `Main.java`.
- Exception types and messages. Each throw site is an `Error` constructor instead.
- `Function.equals`: the `this == obj` shortcut is omitted. Values have no identity, and the shortcut agrees with the token comparison anyway.
- `Functions.StringHash`: Dafny's `char` is a Unicode scalar value, not a UTF-16 code unit. The hash follows `java.lang.String.hashCode` over the characters of the token, so it agrees with Java only on tokens within the Basic Multilingual Plane. A character beyond it is one `char` here but two code units (a surrogate pair) in Java.
- The getters `getToken`, `getNumberOfArguments` and `getPrecedence` are the datatype's fields `token`, `numberOfArguments` and `precedence`. The fields are immutable because datatype values are immutable.
- AdditionOperator.java is not part of this model. The `+` entry takes arity 2 and left associativity, as `SubtractionOperator` has.

## Findings

| source | as written | input that shows it | evidently intended | confidence | as-written member | corrected member |
|---|---|---|---|---|---|---|
| src/main/java/com/logicalbias/parser/operators/FactorialOperator.java:13 | The `int` counter `i` is compared with the `double` argument by `i < a` and incremented by `i++`. | `3000000000!`, lexed as `3.0E9` and `!`. The counter reaches 2147483647, wraps to −2147483648, and stays below a, so `evaluate` never returns. Every argument above `Integer.MAX_VALUE` does the same. | The loop ends once the counter reaches a, as it does for every smaller argument, and returns a · 2 · … · (⌈a⌉ − 1). | high; not executed | FactorialOperator.CounterStaysBelow | FactorialOperator.Apply |
