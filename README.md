# Calculator core: infix to RPN, RPN to syntax tree, tree to tasks

This project is a Dafny model of `pkg/calc/calc.go`, the core of a distributed arithmetic calculator, together with proofs about it. An expression goes through three stages:

1. `InfixToRPN` splits the text into whitespace-separated tokens and reorders them into postfix (RPN) order with the shunting-yard algorithm. The result is joined back into text.
2. `CreateASTFromRPN` splits that text again and builds the syntax tree with a stack of nodes.
3. `SplitASTIntoTasks` walks the tree in post-order and produces one `Task` per operation, with ids numbered from 1.

The token classifiers `isNumber` and `IsOperator`, the precedence table and the two node helpers are modelled alongside.

Modules, one per concern:

- `GoStrings` (`go_strings.dfy`): `strings.Fields` and `strings.Join`, and the round trip between them.
- `Tokens` (`tokens.dfy`): `isNumber`, `IsOperator`, the precedence map, and facts relating them.
- `Ast` (`ast.dfy`): `ASTNode`, `Task`, the error values, `NewNumberASTNode`, `ParseNumber`, and the post-order of a tree.
- `ShuntingYard` (`shunting_yard.dfy`): `InfixToRPN`.
  - It is written as the source's loops, proved equal to a token-by-token specification (`Scan`, `Drain`).
  - It comes with lemmas about what the conversion guarantees.
- `AstBuilder` (`ast_builder.dfy`): `CreateASTFromRPN`.
  - It is written as the source's loop and proved equal to `BuildRun`/`BuildTokens`.
  - It comes with the characterisation of accepted inputs and the proof that building inverts post-order.
- `TaskSplit` (`task_split.dfy`): `SplitASTIntoTasks` and `UpdateASTWithResult`.
  - The Go closure's captured counter and slice are the fields of a `TaskSplitter` object, and its recursive method is the closure.
- `Pipeline` (`pipeline.dfy`): how the three stages compose.

Some modelling choices:

- A float64 is only ever parsed from a literal or left at Go's zero value; nothing here computes with it. `Value` therefore keeps the literal text (`Parsed(s)`), and `Zero` stands for the `0` that `ParseNumber` returns for an operation node.
- Errors are the constructors of `CalcError`:
  - `InvalidToken(t)` is the `fmt.Errorf("invalid token: %s", ...)` error.
  - `MismatchedParentheses` and `InvalidRpnExpression` are the two `errors.New` values.
  - `ExtraOperands` and `Unknown` stand for `ErrExtraOperands` and `ErrUnknown`. The file that declares those two and `ErrParseFloat` is not part of this model.

Facts about the code that the model keeps:

- The code has no `^` operator and no validator of its own.
- Tokens are whitespace-separated fields, so `1+2` is one invalid token.
- A task's operand is `0` when the child is itself an operation.
- `IsOperator` is `strings.Contains("+-*/", token)`: a substring test, not a set membership test.

## Model

| member | source | states |
|---|---|---|
| GoStrings.Fields | pkg/calc/calc.go:86 | every field `strings.Fields` returns is a non-empty run of non-space characters |
| GoStrings.FieldsOfJoin | pkg/calc/calc.go:120 | splitting a list of words joined by single spaces gives the same list back |
| Tokens.IsOperator | pkg/calc/calc.go:70-72 | `strings.Contains("+-*/", token)`: the token is a contiguous piece of `"+-*/"`; `OperatorPieces` lists those pieces |
| Tokens.IsNumber | pkg/calc/calc.go:65-68 | `strconv.ParseFloat(token, 64)` succeeds: an optionally signed decimal literal with optional fraction and exponent, or `inf`, `infinity` or `nan` in any case (see "Left out" for what is not accepted) |
| Tokens.Precedence | pkg/calc/calc.go:84 | the map lookup is positive exactly for `+ - * /` (1 for `+ -`, 2 for `* /`, never above 2) and 0 for every other key, `(` included |
| Tokens.OperatorPieces | pkg/calc/calc.go:70-72 | `IsOperator` holds for exactly the eleven contiguous pieces of `"+-*/"`, including `""` and multi-character pieces such as `"+-"` |
| Tokens.OperatorCharacters | pkg/calc/calc.go:70-72 | every character of an operator token is one of `+ - * /` |
| Tokens.ArithmeticOperators | pkg/calc/calc.go:84 | the single-character operators are exactly the operator tokens that have a non-zero precedence |
| Tokens.NumberLetterOrDigit | pkg/calc/calc.go:65-68 | every token `isNumber` accepts has a letter or digit at some position |
| Tokens.NumberIsNotOperator | pkg/calc/calc.go:65-72 | no number token is an operator, so the order in which the loops test the two classes does not matter |
| Tokens.OperatorIsNotNumber | pkg/calc/calc.go:65-72 | no operator token is a number |
| Tokens.ParenthesisIsNotNumber | pkg/calc/calc.go:65-68 | neither parenthesis is a number |
| Tokens.ParenthesisIsNotOperator | pkg/calc/calc.go:70-72 | neither parenthesis is an operator, so the `(` and `)` branches are reachable |
| Tokens.DigitsAreNumbers | pkg/calc/calc.go:65-68 | a run of decimal digits is a number |
| Ast.ParseNumber | pkg/calc/calc.go:74-79 | a leaf gives its value and an operation gives 0 |
| Ast.NewNumberASTNode | pkg/calc/calc.go:28-40 | succeeds exactly for number tokens and then gives a leaf holding the literal; otherwise fails with `ErrUnknown` |
| Ast.LeavesOutnumberOperations | pkg/calc/calc.go:19-26 | a tree of binary operations has one more leaf than operations |
| ShuntingYard.PopWhileNotLower | pkg/calc/calc.go:91-94 | what stays on the stack is a prefix of it, its top ranks below the incoming operator, and everything moved ranked at least as high |
| ShuntingYard.PopToOpenParen | pkg/calc/calc.go:99-102 | what stays is a prefix of the stack, empty or with `(` on top, and nothing moved was a `(` |
| ShuntingYard.PopOperators | pkg/calc/calc.go:91-94 | the source's inner loop computes `PopWhileNotLower` |
| ShuntingYard.PopToOpen | pkg/calc/calc.go:99-102 | the source's inner loop computes `PopToOpenParen` |
| ShuntingYard.PopWhileOutput | pkg/calc/calc.go:91-94 | the operator loop appends the tokens it pops to the output, top of the stack first |
| ShuntingYard.PopToOpenOutput | pkg/calc/calc.go:99-102 | the `)` loop appends the tokens it pops to the output, top of the stack first |
| ShuntingYard.InfixToRPN | pkg/calc/calc.go:81-121 | the method's result is the token-by-token conversion of `strings.Fields(expr)` joined by spaces, or the first error it meets |
| ShuntingYard.ScanErrorPersists | pkg/calc/calc.go:103-108 | once the token loop has returned an error, later tokens do not change the result |
| ShuntingYard.CloseParenStep | pkg/calc/calc.go:98-106 | a `)` fails exactly when no `(` is on the stack, and then with "mismatched parentheses" |
| ShuntingYard.DrainFails | pkg/calc/calc.go:112-118 | the final loop fails exactly when a `(` is left on the stack, with "mismatched parentheses" |
| ShuntingYard.StepOutcome | pkg/calc/calc.go:87-109 | one pass succeeds on a number, an operator or `(`, succeeds only on a valid token, and fails only with "invalid token" naming an invalid token or with "mismatched parentheses"; a token that is not valid always fails with "invalid token" naming it |
| ShuntingYard.ScanTokens | pkg/calc/calc.go:87-110 | the token loop reads to the end only over valid tokens, and an "invalid token" error names the first token that is not valid |
| ShuntingYard.ScanStopsAtInvalid | pkg/calc/calc.go:107-108 | when the loop reaches a token that is not valid after a prefix it read without error, both the loop and the conversion fail with "invalid token" naming that token |
| ShuntingYard.ScanInvariant | pkg/calc/calc.go:87-110 | after every prefix, the stack holds only operators and `(`, no `)` was output, the non-parenthesis tokens are all in output or stack, and numbers were output in input order |
| ShuntingYard.ConvertRejectsInvalidTokens | pkg/calc/calc.go:107-108 | a successful conversion had only valid tokens; with only valid tokens, the only possible error is "mismatched parentheses" |
| ShuntingYard.ScanBalanced | pkg/calc/calc.go:96-106 | with single-character operators, the token loop reads to the end exactly when no prefix closes more parentheses than it opens |
| ShuntingYard.ConvertAcceptsBalanced | pkg/calc/calc.go:96-118 | with valid tokens and single-character operators, the conversion succeeds exactly when the parentheses are balanced, and otherwise fails with "mismatched parentheses" |
| ShuntingYard.ConvertKeepsNumberOrder | pkg/calc/calc.go:88-89 | the output lists the input's numbers in the input's order |
| ShuntingYard.ConvertKeepsOperands | pkg/calc/calc.go:87-118 | the output holds every non-parenthesis input token as often as the input does, and never a `)` |
| ShuntingYard.ConvertEmitsOperatorsOnce | pkg/calc/calc.go:90-95 | the output's operators are the input's operators, each exactly once |
| ShuntingYard.ConvertDropsParentheses | pkg/calc/calc.go:96-118 | with single-character operators, the output holds no parenthesis and is a rearrangement of the input's other tokens |
| ShuntingYard.ConvertOutputFromInput | pkg/calc/calc.go:87-118 | every output token is an input token or `(` |
| ShuntingYard.ConvertKeepsWords | pkg/calc/calc.go:86-120 | output tokens taken from `strings.Fields` are still words, so joining them loses nothing |
| ShuntingYard.ThreeOperands | pkg/calc/calc.go:90-95 | for `a o1 b o2 d`, `o1` is output before `d` when it ranks at least as high as `o2` (left associativity), otherwise after `o2` |
| ShuntingYard.PrecedenceExamples | pkg/calc/calc.go:84-95 | `1 - 2 - 3` converts to `1 2 - 3 -` and `1 + 2 * 3` to `1 2 3 * +` |
| ShuntingYard.UnrankedOperatorLeaksParenthesis | pkg/calc/calc.go:90-95 | an operator without a precedence entry pops an open `(` into the output: `( x op y` converts to `x ( y op` |
| ShuntingYard.MultiCharacterOperatorLeaksParenthesis | pkg/calc/calc.go:70-72 | `( 1 +- 2` converts without error to `1 ( 2 +-` |
| AstBuilder.CreateASTFromRPN | pkg/calc/calc.go:124-158 | the method's result is the token-by-token build over `strings.Fields(rpn)`, with its errors |
| AstBuilder.BuildErrorPersists | pkg/calc/calc.go:128-151 | once the build loop has returned an error, later tokens do not change the result |
| AstBuilder.BuildRunAccepts | pkg/calc/calc.go:128-151 | the loop reads to the end exactly when every token is a number or an operator with at least two nodes below it. The stack then holds well-typed trees, as many as numbers minus operators, whose post-orders concatenate to the input |
| AstBuilder.BuildRunErrors | pkg/calc/calc.go:135-150 | the loop fails only with `ErrExtraOperands`, or with "invalid token" naming an input token that is neither a number nor an operator |
| AstBuilder.BuildStepErrors | pkg/calc/calc.go:135-150 | one pass over an operator with fewer than two nodes on the stack gives `ErrExtraOperands`, and over a token that is neither a number nor an operator gives "invalid token" naming it |
| AstBuilder.BuildStopsAt | pkg/calc/calc.go:128-151 | after a readable prefix, the next token decides the error of the loop and of the whole build: an operator with fewer than two nodes below it gives `ErrExtraOperands`, and a token that is neither a number nor an operator gives "invalid token" naming it |
| AstBuilder.BuildTokensAccepts | pkg/calc/calc.go:153-157 | a tree is returned exactly when the loop reads everything and leaves one node; a readable input that leaves another count fails with "invalid RPN expression" |
| AstBuilder.BuildPostorder | pkg/calc/calc.go:128-151 | reading a well-typed tree's post-order pushes exactly that tree onto whatever stack was there |
| AstBuilder.BuildInvertsPostorder | pkg/calc/calc.go:124-158 | every well-typed tree is rebuilt from its post-order tokens |
| AstBuilder.BuildIsPostorder | pkg/calc/calc.go:124-158 | a built tree is well typed and its post-order is the input, so building and post-order are inverse |
| AstBuilder.BuiltTreeCounts | pkg/calc/calc.go:128-151 | a built tree has one leaf per number token and one operation per operator token |
| TaskSplit.TaskOf | pkg/calc/calc.go:177-182 | a task carries its id and operator, and each argument is the child's value for a leaf and 0 for an operation (`ParseNumber`) |
| TaskSplit.NumberedIndex | pkg/calc/calc.go:176-178 | consecutive tasks get consecutive ids |
| TaskSplit.NumberedOperation | pkg/calc/calc.go:172-183 | an operation's tasks are its left subtree's, then its right subtree's, then its own under the next id |
| TaskSplit.TaskSplitter.constructor | pkg/calc/calc.go:162-163 | the closure starts with counter 0 and no tasks |
| TaskSplit.TaskSplitter.Traverse | pkg/calc/calc.go:166-184 | the closure advances the counter by the number of operations and appends their tasks in post-order, numbered after the ids already used |
| TaskSplit.SplitASTIntoTasks | pkg/calc/calc.go:161-189 | the result is the tasks of the tree's operation nodes in post-order, numbered from 1 |
| TaskSplit.TaskListShape | pkg/calc/calc.go:161-189 | there is one task per operation (one fewer than the leaves), and task `i` has id `i + 1` and belongs to the `i`-th operation in post-order |
| TaskSplit.RootTaskIsLast | pkg/calc/calc.go:186-188 | a lone number gives no tasks; otherwise the last task is the root operation's |
| TaskSplit.ChildrenComeFirst | pkg/calc/calc.go:172-176 | each listed operation is a subtree of the tree, and an operation child is listed, and so numbered, before its parent |
| TaskSplit.TaskOperators | pkg/calc/calc.go:181 | the task operators, in order, are the operator tokens of the tree's post-order text |
| TaskSplit.TaskOperationsFollowText | pkg/calc/calc.go:181 | task `i` carries the `i`-th operator of the tree's RPN text |
| TaskSplit.UpdateASTWithResult | pkg/calc/calc.go:192-201 | the walk writes nothing: the tree after the call is the tree before it, nil included |
| Pipeline.RpnTextRoundTrip | pkg/calc/calc.go:120-126 | the RPN text of a successful conversion splits back into exactly the converted token list |
| Pipeline.ExpressionTree | pkg/calc/calc.go:81-158 | when both stages succeed, the tree is well typed and its post-order is the conversion's output. Its leaves are the input's numbers in input order, and its operators are the input's, each once |
| Pipeline.ExpressionTasks | pkg/calc/calc.go:161-189 | an expression gives one task per input operator, and task `i` has id `i + 1` and the `i`-th operator of the RPN text |

## Left out

- Tokens.IsNumber: accepts decimal literals and ParseFloat's special values (`inf`, `infinity` and `nan`, in any case, with the sign rules). It leaves out three things. First, hexadecimal floats and underscore digit separators are not accepted. Second, ParseFloat's range error is not modelled: in Go `1e400` is not a number, because ParseFloat reports a range error for it, so `InfixToRPN("1e400")` returns "invalid token: 1e400". The model accepts `1e400` as a number, and its `InfixToRPN("1e400")` gives `Ok("1e400")`. Third, the `ErrParseFloat` branch of `NewNumberASTNode` is left out: it would need ParseFloat to fail on a token `isNumber` just accepted, which cannot happen.
- Float64 values and arithmetic are left out: `Value` keeps the literal text, so a literal `0` and the `0` of `ParseNumber` are distinct values.
- ShuntingYard.ConvertAcceptsBalanced: proved only when every operator token is one of `+ - * /`; "succeeds exactly on balanced parentheses" fails for multi-character operators.
- ShuntingYard.ConvertDropsParentheses: proved only when every operator token is one of `+ - * /`; "no parenthesis in the output" fails for multi-character operators.
- ShuntingYard.ScanBalanced: proved only when every operator token is one of `+ - * /`; once a multi-character operator has moved a `(` to the output, the matching `)` finds no `(` and the loop fails on `( 1 +- 2 )`, whose prefixes are all balanced.
- Why those three lemmas need single-character operators:
  - `IsOperator` also accepts multi-character pieces such as `+-`. Those have precedence 0 like `(`, so the operator loop moves an open `(` into the output.
  - UnrankedOperatorLeaksParenthesis and MultiCharacterOperatorLeaksParenthesis prove this case.
  - Whether the authors meant `IsOperator` as a substring test cannot be read from the code, so it is modelled as written. It is not reported as a defect.
- Pointers and nil are left out, because trees are values here. Nothing in the core mutates a node after it is built, so sharing cannot be observed.
  - `SplitASTIntoTasks(nil)` would dereference nil in Go; the model takes a tree.
  - Operation nodes with nil children are never built by `CreateASTFromRPN`, so they are not modelled.
- `taskID` is an unbounded integer, because Go's `int` cannot overflow at the number of operations a tree can hold.
- GoStrings.Fields: `strings.Fields` decodes UTF-8. Here strings are sequences of characters, so invalid UTF-8 is not modelled.
- The `Expression` and `TaskResult` types are left out. `Expression` is used only by the handlers, and `TaskResult` is declared but used nowhere.
- The rest of the repository is not part of this model. That covers the HTTP handlers, task dispatch and concurrency (`internal/handlers`, `internal/application`, `internal/router`, `cmd/main.go`), configuration (`internal/config`), and `pkg/increment`.
