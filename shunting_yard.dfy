/** `InfixToRPN` of pkg/calc/calc.go (lines 81-121): the shunting-yard
    conversion of whitespace-separated infix text into postfix text.

    The conversion is specified token by token.  `Scan(ts)` is the state
    (output list and operator stack) after reading the tokens `ts`, or the
    error that stopped the loop; `Drain` is the final loop that empties the
    stack; `ConvertTokens` is the two together.  The method `InfixToRPN`
    computes them with the source's loops, and the lemmas below say what the
    conversion guarantees. */
module ShuntingYard {
  import opened Tokens
  import opened Ast
  import opened GoStrings

  /** The converter's two working lists; the stack's top is its last element. */
  datatype Conversion = Conversion(output: seq<string>, stack: seq<string>)

  function Top(s: seq<string>): string
    requires |s| > 0
  {
    s[|s| - 1]
  }

  function Pop(s: seq<string>): seq<string>
    requires |s| > 0
  {
    s[..|s| - 1]
  }

  /** Move the stack's top to the output. */
  function MoveTop(c: Conversion): Conversion
    requires |c.stack| > 0
  {
    Conversion(c.output + [Top(c.stack)], Pop(c.stack))
  }

  /** `s` in reverse order: the order in which a stack's tokens leave it. */
  function Rev(s: seq<string>): (r: seq<string>)
    ensures |r| == |s|
    ensures forall i :: 0 <= i < |s| ==> r[i] == s[|s| - 1 - i]
  {
    if s == [] then [] else [s[|s| - 1]] + Rev(s[..|s| - 1])
  }

  /** The inner loop of the operator case (calc.go:91-94): move the top to
      the output while its precedence is at least `p`.  What stays is a
      prefix of the stack whose top ranks below `p`; everything moved ranked
      at least `p`. */
  function PopWhileNotLower(c: Conversion, p: nat): (d: Conversion)
    ensures |d.stack| <= |c.stack| && d.stack == c.stack[..|d.stack|]
    ensures |d.stack| > 0 ==> Precedence(Top(d.stack)) < p
    ensures forall i :: |d.stack| <= i < |c.stack| ==> Precedence(c.stack[i]) >= p
    decreases |c.stack|
  {
    if |c.stack| > 0 && Precedence(Top(c.stack)) >= p then PopWhileNotLower(MoveTop(c), p) else c
  }

  /** The inner loop of the ")" case (calc.go:99-102): move the top to the
      output until a "(" is on top.  What stays is empty or has "(" on top,
      and nothing moved was a "(". */
  function PopToOpenParen(c: Conversion): (d: Conversion)
    ensures |d.stack| <= |c.stack| && d.stack == c.stack[..|d.stack|]
    ensures |d.stack| > 0 ==> Top(d.stack) == "("
    ensures forall i :: |d.stack| <= i < |c.stack| ==> c.stack[i] != "("
    decreases |c.stack|
  {
    if |c.stack| > 0 && Top(c.stack) != "(" then PopToOpenParen(MoveTop(c)) else c
  }

  /** Taking the top off a stack slice: the top leaves first. */
  lemma RevOfSlice(s: seq<string>, m: nat)
    requires m < |s|
    ensures Rev(s[m..]) == [Top(s)] + Rev(Pop(s)[m..])
  {
    assert s[m..][..|s[m..]| - 1] == Pop(s)[m..];
  }

  /** The operator loop appends the tokens it pops to the output, top
      first (calc.go:92). */
  lemma {:induction false} PopWhileOutput(c: Conversion, p: nat)
    ensures var d := PopWhileNotLower(c, p);
      d.output == c.output + Rev(c.stack[|d.stack|..])
    decreases |c.stack|
  {
    var d := PopWhileNotLower(c, p);
    if |c.stack| > 0 && Precedence(Top(c.stack)) >= p {
      PopWhileOutput(MoveTop(c), p);
      RevOfSlice(c.stack, |d.stack|);
    } else {
      assert c.stack[|d.stack|..] == [];
    }
  }

  /** The ")" loop appends the tokens it pops to the output, top first
      (calc.go:100). */
  lemma {:induction false} PopToOpenOutput(c: Conversion)
    ensures var d := PopToOpenParen(c);
      d.output == c.output + Rev(c.stack[|d.stack|..])
    decreases |c.stack|
  {
    var d := PopToOpenParen(c);
    if |c.stack| > 0 && Top(c.stack) != "(" {
      PopToOpenOutput(MoveTop(c));
      RevOfSlice(c.stack, |d.stack|);
    } else {
      assert c.stack[|d.stack|..] == [];
    }
  }

  /** One pass of the token loop (calc.go:88-109). */
  function Step(c: Conversion, token: string): Result<Conversion> {
    if IsNumber(token) then
      Ok(Conversion(c.output + [token], c.stack))
    else if IsOperator(token) then
      var d := PopWhileNotLower(c, Precedence(token));
      Ok(Conversion(d.output, d.stack + [token]))
    else if token == "(" then
      Ok(Conversion(c.output, c.stack + [token]))
    else if token == ")" then
      var d := PopToOpenParen(c);
      if |d.stack| == 0 then Err(MismatchedParentheses)
      else Ok(Conversion(d.output, Pop(d.stack)))
    else
      Err(InvalidToken(token))
  }

  /** The state after the token loop has read `ts`, or the error it returned. */
  function Scan(ts: seq<string>): Result<Conversion> {
    if ts == [] then Ok(Conversion([], []))
    else
      match Scan(ts[..|ts| - 1])
      case Err(e) => Err(e)
      case Ok(c) => Step(c, ts[|ts| - 1])
  }

  /** The final loop (calc.go:112-118): move the whole stack to the output,
      failing on a parenthesis. */
  function Drain(c: Conversion): Result<seq<string>>
    decreases |c.stack|
  {
    if |c.stack| == 0 then Ok(c.output)
    else if Top(c.stack) == "(" || Top(c.stack) == ")" then Err(MismatchedParentheses)
    else Drain(MoveTop(c))
  }

  /** The conversion of a token list. */
  function ConvertTokens(ts: seq<string>): Result<seq<string>> {
    match Scan(ts)
    case Err(e) => Err(e)
    case Ok(c) => Drain(c)
  }

  /** The conversion of a text: tokens by `strings.Fields`, output joined by
      single spaces. */
  function ConvertText(expr: string): Result<string> {
    match ConvertTokens(Fields(expr))
    case Err(e) => Err(e)
    case Ok(out) => Ok(Join(out, " "))
  }

  /** The loop of calc.go:91-94 on the working lists. */
  method PopOperators(output0: seq<string>, stack0: seq<string>, p: nat)
    returns (output: seq<string>, stack: seq<string>)
    ensures Conversion(output, stack) == PopWhileNotLower(Conversion(output0, stack0), p)
  {
    output, stack := output0, stack0;
    while |stack| > 0 && Precedence(stack[|stack| - 1]) >= p
      invariant PopWhileNotLower(Conversion(output, stack), p) == PopWhileNotLower(Conversion(output0, stack0), p)
      decreases |stack|
    {
      output := output + [stack[|stack| - 1]];
      stack := stack[..|stack| - 1];
    }
  }

  /** The loop of calc.go:99-102 on the working lists. */
  method PopToOpen(output0: seq<string>, stack0: seq<string>)
    returns (output: seq<string>, stack: seq<string>)
    ensures Conversion(output, stack) == PopToOpenParen(Conversion(output0, stack0))
  {
    output, stack := output0, stack0;
    while |stack| > 0 && stack[|stack| - 1] != "("
      invariant PopToOpenParen(Conversion(output, stack)) == PopToOpenParen(Conversion(output0, stack0))
      decreases |stack|
    {
      output := output + [stack[|stack| - 1]];
      stack := stack[..|stack| - 1];
    }
  }

  /** `InfixToRPN` (calc.go:81-121). */
  method InfixToRPN(expr: string) returns (r: Result<string>)
    ensures r == ConvertText(expr)
  {
    var output: seq<string> := [];
    var stack: seq<string> := [];
    var tokens := Fields(expr);
    for i := 0 to |tokens|
      invariant Scan(tokens[..i]) == Ok(Conversion(output, stack))
    {
      var token := tokens[i];
      assert tokens[..i + 1][..i] == tokens[..i];
      if IsNumber(token) {
        output := output + [token];
      } else if IsOperator(token) {
        output, stack := PopOperators(output, stack, Precedence(token));
        stack := stack + [token];
      } else if token == "(" {
        stack := stack + [token];
      } else if token == ")" {
        output, stack := PopToOpen(output, stack);
        if |stack| == 0 {
          ScanErrorPersists(tokens, i + 1);
          assert tokens[..|tokens|] == tokens;
          return Err(MismatchedParentheses);
        }
        stack := stack[..|stack| - 1];
      } else {
        ScanErrorPersists(tokens, i + 1);
        assert tokens[..|tokens|] == tokens;
        return Err(InvalidToken(token));
      }
    }
    assert tokens[..|tokens|] == tokens;
    ghost var scanned := Conversion(output, stack);
    while |stack| > 0
      invariant Drain(Conversion(output, stack)) == Drain(scanned)
      decreases |stack|
    {
      if stack[|stack| - 1] == "(" || stack[|stack| - 1] == ")" {
        return Err(MismatchedParentheses);
      }
      output := output + [stack[|stack| - 1]];
      stack := stack[..|stack| - 1];
    }
    r := Ok(Join(output, " "));
  }

  /** Once the token loop has returned an error, later tokens do not matter. */
  lemma {:induction false} ScanErrorPersists(ts: seq<string>, k: nat)
    requires k <= |ts| && Scan(ts[..k]).Err?
    ensures Scan(ts) == Scan(ts[..k])
    decreases |ts| - k
  {
    if k < |ts| {
      var ts' := ts[..|ts| - 1];
      assert ts'[..k] == ts[..k];
      ScanErrorPersists(ts', k);
    } else {
      assert ts[..k] == ts;
    }
  }

  // ---------------------------------------------------------------------
  // Token classes and the invariant of the token loop.

  predicate IsParen(t: string) { t == "(" || t == ")" }

  /** A token the loop accepts: a number, an operator or a parenthesis. */
  predicate ValidToken(t: string) { IsNumber(t) || IsOperator(t) || IsParen(t) }

  predicate ValidTokens(ts: seq<string>) {
    forall i :: 0 <= i < |ts| ==> ValidToken(ts[i])
  }

  /** Every operator token is one of the four single-character operators. */
  predicate SimpleOperators(ts: seq<string>) {
    forall i :: 0 <= i < |ts| ==> IsOperator(ts[i]) ==> IsArithmeticOperator(ts[i])
  }

  /** The tokens of `s` other than parentheses, in order. */
  function WithoutParens(s: seq<string>): (r: seq<string>)
    ensures |r| <= |s|
  {
    if s == [] then []
    else WithoutParens(s[..|s| - 1]) + (if IsParen(s[|s| - 1]) then [] else [s[|s| - 1]])
  }

  /** Open parentheses minus close parentheses. */
  function ParenDepth(s: seq<string>): int {
    multiset(s)["("] as int - multiset(s)[")"] as int
  }

  /** No prefix closes more parentheses than it opens. */
  predicate PrefixBalanced(ts: seq<string>) {
    forall k :: 0 <= k <= |ts| ==> ParenDepth(ts[..k]) >= 0
  }

  /** The parentheses of `ts` pair up. */
  predicate Balanced(ts: seq<string>) {
    PrefixBalanced(ts) && ParenDepth(ts) == 0
  }

  /** The stack only ever holds operators and "(". */
  predicate StackShape(stack: seq<string>) {
    forall i :: 0 <= i < |stack| ==> IsOperator(stack[i]) || stack[i] == "("
  }

  /** What holds of the working lists after the tokens `ts`: the stack has
      its shape, no ")" was output, the tokens other than parentheses are all
      in the output or on the stack, and the numbers were output in order. */
  ghost predicate Invariant(ts: seq<string>, c: Conversion) {
    && StackShape(c.stack)
    && ")" !in c.output
    && multiset(WithoutParens(c.output)) + multiset(WithoutParens(c.stack)) == multiset(WithoutParens(ts))
    && NumberTokens(c.output) == NumberTokens(ts)
  }

  /** What holds as well when the operators are single characters: no "("
      was output, and the stack holds one "(" per unclosed parenthesis. */
  ghost predicate SimpleInvariant(ts: seq<string>, c: Conversion) {
    "(" !in c.output && multiset(c.stack)["("] == ParenDepth(ts)
  }

  lemma {:induction false} WithoutParensAppend(a: seq<string>, b: seq<string>)
    ensures WithoutParens(a + b) == WithoutParens(a) + WithoutParens(b)
    decreases |b|
  {
    if b == [] {
      assert a + b == a;
    } else {
      var b' := b[..|b| - 1];
      assert (a + b)[..|a + b| - 1] == a + b';
      assert (a + b)[|a + b| - 1] == b[|b| - 1];
      WithoutParensAppend(a, b');
    }
  }

  lemma WithoutParensSingleton(t: string)
    ensures WithoutParens([t]) == if IsParen(t) then [] else [t]
  {
    assert [t][..0] == [];
  }

  /** A list without parentheses is its own filter. */
  lemma {:induction false} WithoutParensIdentity(s: seq<string>)
    requires "(" !in s && ")" !in s
    ensures WithoutParens(s) == s
  {
    if s != [] {
      WithoutParensIdentity(s[..|s| - 1]);
    }
  }

  /** Moving `x` from the end of one list to the end of another keeps the
      combined tokens other than parentheses. */
  lemma MoveKeepsTokens(out: seq<string>, rest: seq<string>, x: string)
    ensures multiset(WithoutParens(out + [x])) + multiset(WithoutParens(rest))
         == multiset(WithoutParens(out)) + multiset(WithoutParens(rest + [x]))
  {
    WithoutParensAppend(out, [x]);
    WithoutParensAppend(rest, [x]);
  }

  lemma MoveKeepsNumbers(out: seq<string>, x: string)
    requires !IsNumber(x)
    ensures NumberTokens(out + [x]) == NumberTokens(out)
  {
    NumberTokensAppend(out, [x]);
    TokensOfSingleton(x);
  }

  /** Moving a stacked token to the output keeps the invariant, and the
      stronger one too unless the token is "(". */
  lemma MovePreserves(ts: seq<string>, c: Conversion)
    requires Invariant(ts, c) && |c.stack| > 0
    ensures Invariant(ts, MoveTop(c))
    ensures SimpleInvariant(ts, c) && Top(c.stack) != "(" ==> SimpleInvariant(ts, MoveTop(c))
  {
    PopThenPush(c.stack);
    MoveKeepsInvariant(ts, c.output, Pop(c.stack), Top(c.stack));
    if SimpleInvariant(ts, c) && Top(c.stack) != "(" {
      MoveKeepsSimple(ts, c.output, Pop(c.stack), Top(c.stack));
    }
  }

  lemma MoveKeepsInvariant(ts: seq<string>, out: seq<string>, rest: seq<string>, x: string)
    requires Invariant(ts, Conversion(out, rest + [x]))
    ensures Invariant(ts, Conversion(out + [x], rest))
  {
    assert (rest + [x])[|rest|] == x;
    assert IsOperator(x) || x == "(";
    if IsOperator(x) {
      OperatorIsNotNumber(x);
      ParenthesisIsNotOperator(")");
    } else {
      ParenthesisIsNotNumber(x);
    }
    assert x != ")";
    MoveKeepsTokens(out, rest, x);
    MoveKeepsNumbers(out, x);
    assert forall i :: 0 <= i < |rest| ==> rest[i] == (rest + [x])[i];
  }

  lemma MoveKeepsSimple(ts: seq<string>, out: seq<string>, rest: seq<string>, x: string)
    requires SimpleInvariant(ts, Conversion(out, rest + [x])) && x != "("
    ensures SimpleInvariant(ts, Conversion(out + [x], rest))
  {
    assert multiset(rest + [x]) == multiset(rest) + multiset{x};
  }

  lemma {:induction false} PopWhilePreserves(ts: seq<string>, c: Conversion, p: nat)
    requires Invariant(ts, c)
    ensures Invariant(ts, PopWhileNotLower(c, p))
    ensures SimpleInvariant(ts, c) && p > 0 ==> SimpleInvariant(ts, PopWhileNotLower(c, p))
    decreases |c.stack|
  {
    if |c.stack| > 0 && Precedence(Top(c.stack)) >= p {
      MovePreserves(ts, c);
      PopWhilePreserves(ts, MoveTop(c), p);
    }
  }

  lemma {:induction false} PopToOpenPreserves(ts: seq<string>, c: Conversion)
    requires Invariant(ts, c)
    ensures Invariant(ts, PopToOpenParen(c))
    ensures SimpleInvariant(ts, c) ==> SimpleInvariant(ts, PopToOpenParen(c))
    decreases |c.stack|
  {
    if |c.stack| > 0 && Top(c.stack) != "(" {
      MovePreserves(ts, c);
      PopToOpenPreserves(ts, MoveTop(c));
    }
  }

  /** A ")" fails exactly when no "(" is on the stack (calc.go:99-105). */
  lemma CloseParenStep(c: Conversion)
    ensures Step(c, ")").Err? <==> "(" !in c.stack
    ensures Step(c, ")").Err? ==> Step(c, ")").error == MismatchedParentheses
  {
    ParenthesisIsNotNumber(")");
    ParenthesisIsNotOperator(")");
    var d := PopToOpenParen(c);
    if |d.stack| > 0 {
      assert d.stack[|d.stack| - 1] == c.stack[|d.stack| - 1];
    }
  }

  /** How the measured quantities of a token list grow by one token. */
  lemma AppendToken(ts: seq<string>, t: string)
    ensures WithoutParens(ts + [t]) == WithoutParens(ts) + (if IsParen(t) then [] else [t])
    ensures NumberTokens(ts + [t]) == NumberTokens(ts) + (if IsNumber(t) then [t] else [])
    ensures multiset(ts + [t]) == multiset(ts) + multiset{t}
  {
    assert (ts + [t])[..|ts|] == ts;
  }

  lemma NumberPreserves(ts: seq<string>, c: Conversion, t: string)
    requires Invariant(ts, c) && IsNumber(t)
    ensures Invariant(ts + [t], Conversion(c.output + [t], c.stack))
    ensures SimpleInvariant(ts, c) ==> SimpleInvariant(ts + [t], Conversion(c.output + [t], c.stack))
  {
    ParenthesisIsNotNumber("(");
    ParenthesisIsNotNumber(")");
    assert !IsParen(t);
    NumberKeepsInvariant(ts, c, t);
    if SimpleInvariant(ts, c) {
      NumberKeepsSimple(ts, c, t);
    }
  }

  lemma NumberKeepsInvariant(ts: seq<string>, c: Conversion, t: string)
    requires Invariant(ts, c) && IsNumber(t) && !IsParen(t)
    ensures Invariant(ts + [t], Conversion(c.output + [t], c.stack))
  {
    NumberKeepsTokens(ts, c.output, t);
    var wo, wt := WithoutParens(c.output), WithoutParens(ts);
    assert multiset(wo + [t]) == multiset(wo) + multiset{t};
    assert multiset(wt + [t]) == multiset(wt) + multiset{t};
    AppendToken(ts, t);
    NumberTokensAppend(c.output, [t]);
    TokensOfSingleton(t);
  }

  lemma NumberKeepsSimple(ts: seq<string>, c: Conversion, t: string)
    requires SimpleInvariant(ts, c) && !IsParen(t)
    ensures SimpleInvariant(ts + [t], Conversion(c.output + [t], c.stack))
  {
    ParenDepthAppend(ts, t);
  }

  lemma NumberKeepsTokens(ts: seq<string>, out: seq<string>, t: string)
    requires !IsParen(t)
    ensures WithoutParens(ts + [t]) == WithoutParens(ts) + [t]
    ensures WithoutParens(out + [t]) == WithoutParens(out) + [t]
  {
    AppendToken(ts, t);
    WithoutParensAppend(out, [t]);
    WithoutParensSingleton(t);
  }

  /** Pushing an operator keeps the invariant, and the stronger one too. */
  lemma PushOperatorPreserves(ts: seq<string>, e: Conversion, t: string)
    requires Invariant(ts, e) && IsOperator(t)
    ensures Invariant(ts + [t], Conversion(e.output, e.stack + [t]))
    ensures SimpleInvariant(ts, e) ==> SimpleInvariant(ts + [t], Conversion(e.output, e.stack + [t]))
  {
    OperatorIsNotNumber(t);
    ParenthesisIsNotOperator("(");
    ParenthesisIsNotOperator(")");
    StackShapePush(e.stack, t);
    PushKeepsInvariant(ts, e, t);
    if SimpleInvariant(ts, e) {
      PushKeepsSimple(ts, e, t);
    }
  }

  lemma PushKeepsInvariant(ts: seq<string>, e: Conversion, t: string)
    requires Invariant(ts, e) && StackShape(e.stack + [t]) && !IsNumber(t) && !IsParen(t)
    ensures Invariant(ts + [t], Conversion(e.output, e.stack + [t]))
  {
    AppendToken(ts, t);
    WithoutParensAppend(e.stack, [t]);
    WithoutParensSingleton(t);
    var ws, wt := WithoutParens(e.stack), WithoutParens(ts);
    assert multiset(ws + [t]) == multiset(ws) + multiset{t};
  }

  lemma PushKeepsSimple(ts: seq<string>, e: Conversion, t: string)
    requires SimpleInvariant(ts, e) && !IsParen(t)
    ensures SimpleInvariant(ts + [t], Conversion(e.output, e.stack + [t]))
  {
    ParenDepthAppend(ts, t);
    assert multiset(e.stack + [t]) == multiset(e.stack) + multiset{t};
  }

  lemma OperatorPreserves(ts: seq<string>, c: Conversion, t: string)
    requires Invariant(ts, c) && IsOperator(t)
    ensures var e := PopWhileNotLower(c, Precedence(t));
      Invariant(ts + [t], Conversion(e.output, e.stack + [t]))
    ensures var e := PopWhileNotLower(c, Precedence(t));
      SimpleInvariant(ts, c) && IsArithmeticOperator(t) ==> SimpleInvariant(ts + [t], Conversion(e.output, e.stack + [t]))
  {
    var e := PopWhileNotLower(c, Precedence(t));
    PopWhilePreserves(ts, c, Precedence(t));
    PushOperatorPreserves(ts, e, t);
  }

  lemma OpenPreserves(ts: seq<string>, c: Conversion)
    requires Invariant(ts, c)
    ensures Invariant(ts + ["("], Conversion(c.output, c.stack + ["("]))
    ensures SimpleInvariant(ts, c) ==> SimpleInvariant(ts + ["("], Conversion(c.output, c.stack + ["("]))
  {
    ParenthesisIsNotNumber("(");
    StackShapePush(c.stack, "(");
    PushParenKeepsInvariant(ts, c, "(");
    if SimpleInvariant(ts, c) {
      OpenKeepsSimple(ts, c, "(");
    }
  }

  /** Pushing a parenthesis onto the stack leaves the measured lists as
      they were. */
  lemma PushParenKeepsInvariant(ts: seq<string>, c: Conversion, x: string)
    requires Invariant(ts, c) && IsParen(x) && !IsNumber(x) && StackShape(c.stack + [x])
    ensures Invariant(ts + [x], Conversion(c.output, c.stack + [x]))
  {
    AppendToken(ts, x);
    assert WithoutParens(ts + [x]) == WithoutParens(ts);
    assert NumberTokens(ts + [x]) == NumberTokens(ts);
    WithoutParensAppend(c.stack, [x]);
    WithoutParensSingleton(x);
    assert WithoutParens(c.stack + [x]) == WithoutParens(c.stack);
  }

  lemma OpenKeepsSimple(ts: seq<string>, c: Conversion, x: string)
    requires SimpleInvariant(ts, c) && x == "("
    ensures SimpleInvariant(ts + [x], Conversion(c.output, c.stack + [x]))
  {
    ParenDepthAppend(ts, x);
    assert multiset(c.stack + [x]) == multiset(c.stack) + multiset{x};
  }

  lemma StackShapePush(stack: seq<string>, x: string)
    requires StackShape(stack) && (IsOperator(x) || x == "(")
    ensures StackShape(stack + [x])
  {
  }

  lemma ClosePreserves(ts: seq<string>, c: Conversion)
    requires Invariant(ts, c) && |PopToOpenParen(c).stack| > 0
    ensures var e := PopToOpenParen(c);
      Invariant(ts + [")"], Conversion(e.output, Pop(e.stack)))
    ensures var e := PopToOpenParen(c);
      SimpleInvariant(ts, c) ==> SimpleInvariant(ts + [")"], Conversion(e.output, Pop(e.stack)))
  {
    PopToOpenPreserves(ts, c);
    DropOpenPreserves(ts, PopToOpenParen(c));
  }

  lemma PopThenPush(s: seq<string>)
    requires |s| > 0
    ensures s == Pop(s) + [Top(s)]
  {
  }

  /** Dropping the "(" that a ")" closes keeps the invariant. */
  lemma DropOpenPreserves(ts: seq<string>, e: Conversion)
    requires Invariant(ts, e) && |e.stack| > 0 && Top(e.stack) == "("
    ensures Invariant(ts + [")"], Conversion(e.output, Pop(e.stack)))
    ensures SimpleInvariant(ts, e) ==> SimpleInvariant(ts + [")"], Conversion(e.output, Pop(e.stack)))
  {
    ParenthesisIsNotNumber(")");
    AppendToken(ts, ")");
    assert WithoutParens(ts + [")"]) == WithoutParens(ts);
    assert NumberTokens(ts + [")"]) == NumberTokens(ts);
    var rest, x := Pop(e.stack), Top(e.stack);
    PopThenPush(e.stack);
    WithoutParensAppend(rest, [x]);
    WithoutParensSingleton(x);
    assert WithoutParens(rest) == WithoutParens(e.stack);
    ParenDepthAppend(ts, ")");
    assert multiset(e.stack) == multiset(rest) + multiset{x};
  }

  /** Reading one more token keeps the invariant. */
  lemma StepPreserves(ts: seq<string>, c: Conversion, t: string)
    requires Invariant(ts, c) && Step(c, t).Ok?
    ensures Invariant(ts + [t], Step(c, t).value)
    ensures SimpleInvariant(ts, c) && (IsOperator(t) ==> IsArithmeticOperator(t))
      ==> SimpleInvariant(ts + [t], Step(c, t).value)
  {
    if IsNumber(t) {
      NumberPreserves(ts, c, t);
    } else if IsOperator(t) {
      OperatorPreserves(ts, c, t);
    } else if t == "(" {
      OpenPreserves(ts, c);
    } else {
      assert t == ")";
      ClosePreserves(ts, c);
    }
  }

  /** The invariant holds after every token the loop reads. */
  lemma {:induction false} ScanInvariant(ts: seq<string>)
    ensures Scan(ts).Ok? ==> Invariant(ts, Scan(ts).value)
    ensures Scan(ts).Ok? && SimpleOperators(ts) ==> SimpleInvariant(ts, Scan(ts).value)
  {
    if ts == [] {
    } else {
      var ts' := ts[..|ts| - 1];
      var t := ts[|ts| - 1];
      ScanInvariant(ts');
      assert ts == ts' + [t];
      if Scan(ts').Ok? {
        assert SimpleOperators(ts) ==> SimpleOperators(ts') && (IsOperator(t) ==> IsArithmeticOperator(t));
        if Step(Scan(ts').value, t).Ok? {
          StepPreserves(ts', Scan(ts').value, t);
        }
      }
    }
  }

  /** The final loop fails exactly when a "(" is left on the stack
      (calc.go:112-115), and it fails with "mismatched parentheses". */
  lemma {:induction false} DrainFails(c: Conversion)
    requires StackShape(c.stack)
    ensures Drain(c).Ok? <==> "(" !in c.stack
    ensures Drain(c).Err? ==> Drain(c).error == MismatchedParentheses
    decreases |c.stack|
  {
    if |c.stack| > 0 {
      var x := Top(c.stack);
      assert c.stack == Pop(c.stack) + [x];
      if x != "(" {
        ParenthesisIsNotOperator(")");
        assert x != ")";
        DrainFails(MoveTop(c));
      }
    }
  }

  /** Emptying the stack keeps the invariant. */
  lemma {:induction false} DrainPreserves(ts: seq<string>, c: Conversion)
    requires Invariant(ts, c) && Drain(c).Ok?
    ensures Invariant(ts, Conversion(Drain(c).value, []))
    ensures SimpleInvariant(ts, c) ==> SimpleInvariant(ts, Conversion(Drain(c).value, []))
    decreases |c.stack|
  {
    if |c.stack| > 0 {
      MovePreserves(ts, c);
      DrainPreserves(ts, MoveTop(c));
    }
  }

  // ---------------------------------------------------------------------
  // What the conversion guarantees.

  /** What one pass of the loop does with a token of each kind. */
  lemma StepOutcome(c: Conversion, t: string)
    ensures Step(c, t).Ok? ==> ValidToken(t)
    ensures ValidToken(t) && t != ")" ==> Step(c, t).Ok?
    ensures Step(c, t).Err? ==>
      (Step(c, t).error == InvalidToken(t) && !ValidToken(t)) || Step(c, t).error == MismatchedParentheses
    ensures !ValidToken(t) ==> Step(c, t) == Err(InvalidToken(t))
  {
  }

  lemma ValidTokensSnoc(p: seq<string>, t: string)
    ensures ValidTokens(p + [t]) <==> ValidTokens(p) && ValidToken(t)
  {
    if ValidTokens(p + [t]) {
      assert forall i | 0 <= i < |p| :: (p + [t])[i] == p[i];
      assert (p + [t])[|p|] == t;
    }
  }

  /** The token loop stops at the first token that is not a number, an
      operator or a parenthesis (calc.go:107-108) and reports that token;
      its only other error is "mismatched parentheses". */
  lemma {:induction false} ScanTokens(ts: seq<string>)
    ensures Scan(ts).Ok? ==> ValidTokens(ts)
    ensures Scan(ts).Err? ==> Scan(ts).error == MismatchedParentheses || Scan(ts).error.InvalidToken?
    ensures Scan(ts).Err? && Scan(ts).error.InvalidToken? ==>
      exists k :: 0 <= k < |ts| && ts[k] == Scan(ts).error.token && !ValidToken(ts[k]) && ValidTokens(ts[..k])
  {
    if ts != [] {
      var ts' := ts[..|ts| - 1];
      var t := ts[|ts| - 1];
      assert ts == ts' + [t];
      ScanTokens(ts');
      match Scan(ts')
      case Err(e) =>
        if e.InvalidToken? {
          var k :| 0 <= k < |ts'| && ts'[k] == e.token && !ValidToken(ts'[k]) && ValidTokens(ts'[..k]);
          assert ts[k] == ts'[k] && ts[..k] == ts'[..k];
        }
      case Ok(c) =>
        StepOutcome(c, t);
        ValidTokensSnoc(ts', t);
        if Step(c, t).Err? && Step(c, t).error.InvalidToken? {
          assert ts[|ts'|] == t && ts[..|ts'|] == ts';
        }
    }
  }

  /** Conversely, the loop reaching a token that is not valid stops there
      with "invalid token" naming it (calc.go:107-108), and so does the
      conversion. */
  lemma ScanStopsAtInvalid(ts: seq<string>, k: nat)
    requires k < |ts| && Scan(ts[..k]).Ok? && !ValidToken(ts[k])
    ensures Scan(ts) == Err(InvalidToken(ts[k]))
    ensures ConvertTokens(ts) == Err(InvalidToken(ts[k]))
  {
    var p := ts[..k + 1];
    assert p[..|p| - 1] == ts[..k];
    ScanLast(p, Scan(ts[..k]).value);
    StepOutcome(Scan(ts[..k]).value, ts[k]);
    ScanErrorPersists(ts, k + 1);
  }

  /** An "invalid token" error names the first token of the input that is
      not a number, an operator or a parenthesis; a list of valid tokens
      can only fail with "mismatched parentheses"; and a successful
      conversion read only valid tokens. */
  lemma ConvertRejectsInvalidTokens(ts: seq<string>)
    ensures ConvertTokens(ts).Ok? ==> ValidTokens(ts)
    ensures ConvertTokens(ts).Err? && ConvertTokens(ts).error.InvalidToken? ==>
      exists k :: 0 <= k < |ts| && ts[k] == ConvertTokens(ts).error.token && !ValidToken(ts[k]) && ValidTokens(ts[..k])
    ensures ValidTokens(ts) ==> ConvertTokens(ts).Ok? || ConvertTokens(ts).error == MismatchedParentheses
  {
    ScanTokens(ts);
    ScanInvariant(ts);
    if Scan(ts).Ok? {
      DrainFails(Scan(ts).value);
    }
  }

  lemma ParenDepthAppend(ts: seq<string>, t: string)
    ensures ParenDepth(ts + [t]) == ParenDepth(ts) + (if t == "(" then 1 else if t == ")" then -1 else 0)
  {
    AppendToken(ts, t);
  }

  lemma PrefixBalancedAppend(ts: seq<string>, t: string)
    ensures PrefixBalanced(ts + [t]) <==> PrefixBalanced(ts) && ParenDepth(ts + [t]) >= 0
  {
    var ts' := ts + [t];
    assert forall k :: 0 <= k <= |ts| ==> ts'[..k] == ts[..k];
    assert ts'[..|ts'|] == ts';
  }

  /** One token more, with the stack holding one "(" per open parenthesis:
      the pass succeeds exactly when the depth stays non-negative. */
  lemma StepBalanced(ts: seq<string>, c: Conversion, t: string)
    requires SimpleInvariant(ts, c) && ParenDepth(ts) >= 0 && ValidToken(t)
    ensures Step(c, t).Ok? <==> ParenDepth(ts + [t]) >= 0
  {
    ParenDepthAppend(ts, t);
    if t == ")" {
      CloseParenStep(c);
      assert ("(" in c.stack) <==> multiset(c.stack)["("] > 0;
    } else {
      StepOutcome(c, t);
    }
  }

  /** With single-character operators and valid tokens, the token loop
      runs to the end exactly when no prefix of the input closes more
      parentheses than it opens. */
  lemma {:induction false} ScanBalanced(ts: seq<string>)
    requires ValidTokens(ts) && SimpleOperators(ts)
    ensures Scan(ts).Ok? <==> PrefixBalanced(ts)
  {
    if ts == [] {
      assert ts[..0] == [];
    } else {
      var ts' := ts[..|ts| - 1];
      var t := ts[|ts| - 1];
      assert ts == ts' + [t];
      assert ValidTokens(ts') && SimpleOperators(ts');
      ScanBalanced(ts');
      PrefixBalancedAppend(ts', t);
      if Scan(ts').Ok? {
        ScanInvariant(ts');
        assert ts'[..|ts'|] == ts';
        StepBalanced(ts', Scan(ts').value, t);
      }
    }
  }

  /** With single-character operators and valid tokens, the conversion
      succeeds exactly when the parentheses are balanced, and otherwise
      fails with "mismatched parentheses". */
  lemma ConvertAcceptsBalanced(ts: seq<string>)
    requires ValidTokens(ts) && SimpleOperators(ts)
    ensures ConvertTokens(ts).Ok? <==> Balanced(ts)
    ensures ConvertTokens(ts).Err? ==> ConvertTokens(ts).error == MismatchedParentheses
  {
    ScanBalanced(ts);
    ConvertRejectsInvalidTokens(ts);
    ScanInvariant(ts);
    if Scan(ts).Ok? {
      var c := Scan(ts).value;
      DrainFails(c);
      assert ("(" in c.stack) <==> multiset(c.stack)["("] > 0;
      assert ts[..|ts|] == ts;
    }
  }

  /** The output list after a successful conversion satisfies the invariant
      with an empty stack. */
  lemma ConvertInvariant(ts: seq<string>)
    requires ConvertTokens(ts).Ok?
    ensures Invariant(ts, Conversion(ConvertTokens(ts).value, []))
    ensures SimpleOperators(ts) ==> SimpleInvariant(ts, Conversion(ConvertTokens(ts).value, []))
  {
    ScanInvariant(ts);
    DrainPreserves(ts, Scan(ts).value);
  }

  /** Number tokens reach the output in the order of the input
      (calc.go:88-89): only operators and "(" are ever stacked. */
  lemma ConvertKeepsNumberOrder(ts: seq<string>)
    requires ConvertTokens(ts).Ok?
    ensures NumberTokens(ConvertTokens(ts).value) == NumberTokens(ts)
  {
    ConvertInvariant(ts);
  }

  /** Every token of the input other than a parenthesis reaches the output,
      as often as it occurs in the input, and no ")" is ever output. */
  lemma ConvertKeepsOperands(ts: seq<string>)
    requires ConvertTokens(ts).Ok?
    ensures multiset(WithoutParens(ConvertTokens(ts).value)) == multiset(WithoutParens(ts))
    ensures ")" !in ConvertTokens(ts).value
  {
    ConvertInvariant(ts);
  }

  lemma {:induction false} OperatorTokensCount(s: seq<string>, x: string)
    ensures multiset(OperatorTokens(s))[x] == if IsOperator(x) then multiset(s)[x] else 0
  {
    if s != [] {
      var s' := s[..|s| - 1];
      assert s == s' + [s[|s| - 1]];
      OperatorTokensCount(s', x);
    }
  }

  lemma {:induction false} OperatorTokensWithoutParens(s: seq<string>)
    ensures OperatorTokens(WithoutParens(s)) == OperatorTokens(s)
  {
    if s != [] {
      var s' := s[..|s| - 1];
      var x := s[|s| - 1];
      OperatorTokensWithoutParens(s');
      OperatorTokensAppend(WithoutParens(s'), if IsParen(x) then [] else [x]);
      TokensOfSingleton(x);
      if IsParen(x) {
        ParenthesisIsNotOperator(x);
        assert WithoutParens(s') + [] == WithoutParens(s');
      }
    }
  }

  /** Every operator token of the input is output exactly once
      (calc.go:92, 100, 116). */
  lemma ConvertEmitsOperatorsOnce(ts: seq<string>)
    requires ConvertTokens(ts).Ok?
    ensures multiset(OperatorTokens(ConvertTokens(ts).value)) == multiset(OperatorTokens(ts))
  {
    var out := ConvertTokens(ts).value;
    ConvertKeepsOperands(ts);
    OperatorTokensWithoutParens(out);
    OperatorTokensWithoutParens(ts);
    forall x ensures multiset(OperatorTokens(WithoutParens(out)))[x] == multiset(OperatorTokens(WithoutParens(ts)))[x] {
      OperatorTokensCount(WithoutParens(out), x);
      OperatorTokensCount(WithoutParens(ts), x);
    }
    assert multiset(OperatorTokens(WithoutParens(out))) == multiset(OperatorTokens(WithoutParens(ts)));
  }

  /** With single-character operators, a successful output holds no
      parenthesis at all and is a rearrangement of the input's other
      tokens. */
  lemma ConvertDropsParentheses(ts: seq<string>)
    requires ConvertTokens(ts).Ok? && SimpleOperators(ts)
    ensures "(" !in ConvertTokens(ts).value && ")" !in ConvertTokens(ts).value
    ensures multiset(ConvertTokens(ts).value) == multiset(WithoutParens(ts))
  {
    ConvertInvariant(ts);
    WithoutParensIdentity(ConvertTokens(ts).value);
  }

  lemma {:induction false} InWithoutParens(s: seq<string>, x: string)
    requires x in WithoutParens(s)
    ensures x in s
  {
    if s != [] {
      var s' := s[..|s| - 1];
      if x in WithoutParens(s') {
        InWithoutParens(s', x);
      }
    }
  }

  /** Every output token is an input token or "(". */
  lemma ConvertOutputFromInput(ts: seq<string>)
    requires ConvertTokens(ts).Ok?
    ensures forall i :: 0 <= i < |ConvertTokens(ts).value| ==>
      ConvertTokens(ts).value[i] == "(" || ConvertTokens(ts).value[i] in ts
  {
    var out := ConvertTokens(ts).value;
    ConvertKeepsOperands(ts);
    forall i | 0 <= i < |out| && out[i] != "(" ensures out[i] in ts {
      WithoutParensOf(out, i);
      assert multiset(WithoutParens(ts))[out[i]] > 0;
      InWithoutParens(ts, out[i]);
    }
  }

  /** So words stay words. */
  lemma ConvertKeepsWords(ts: seq<string>)
    requires ConvertTokens(ts).Ok? && AllWords(ts)
    ensures AllWords(ConvertTokens(ts).value)
  {
    ConvertOutputFromInput(ts);
    assert IsWord("(");
  }

  lemma {:induction false} WithoutParensOf(s: seq<string>, i: nat)
    requires i < |s| && !IsParen(s[i])
    ensures s[i] in WithoutParens(s)
  {
    var s' := s[..|s| - 1];
    if i < |s| - 1 {
      assert s'[i] == s[i];
      WithoutParensOf(s', i);
    }
  }

  // ---------------------------------------------------------------------
  // Precedence and associativity.

  lemma NumberStep(c: Conversion, t: string)
    requires IsNumber(t)
    ensures Step(c, t) == Ok(Conversion(c.output + [t], c.stack))
  {
  }

  /** The scan of a non-empty list from the state its prefix leaves. */
  lemma ScanLast(ts: seq<string>, c: Conversion)
    requires |ts| > 0 && Scan(ts[..|ts| - 1]) == Ok(c)
    ensures Scan(ts) == Step(c, ts[|ts| - 1])
  {
  }

  lemma OperatorStep(c: Conversion, t: string)
    requires IsOperator(t)
    ensures Step(c, t) == Ok(Conversion(PopWhileNotLower(c, Precedence(t)).output,
                                        PopWhileNotLower(c, Precedence(t)).stack + [t]))
  {
    OperatorIsNotNumber(t);
  }

  lemma FirstNumber(a: string)
    requires IsNumber(a)
    ensures Scan([a]) == Ok(Conversion([a], []))
  {
    assert [a][..0] == [];
    ScanLast([a], Conversion([], []));
    NumberStep(Conversion([], []), a);
    assert [] + [a] == [a];
  }

  lemma NumberThenOperator(a: string, o1: string)
    requires IsNumber(a) && IsArithmeticOperator(o1)
    ensures Scan([a, o1]) == Ok(Conversion([a], [o1]))
  {
    FirstNumber(a);
    ArithmeticOperators(o1);
    assert [a, o1][..1] == [a];
    ScanLast([a, o1], Conversion([a], []));
    OperatorStep(Conversion([a], []), o1);
    assert PopWhileNotLower(Conversion([a], []), Precedence(o1)) == Conversion([a], []);
    assert [] + [o1] == [o1];
  }

  /** "a o1 b" leaves both operands in the output and `o1` on the stack. */
  lemma OneOperation(a: string, o1: string, b: string)
    requires IsNumber(a) && IsNumber(b) && IsArithmeticOperator(o1)
    ensures Scan([a, o1, b]) == Ok(Conversion([a, b], [o1]))
  {
    NumberThenOperator(a, o1);
    assert [a, o1, b][..2] == [a, o1];
    ScanLast([a, o1, b], Conversion([a], [o1]));
    NumberStep(Conversion([a], [o1]), b);
    assert [a] + [b] == [a, b];
  }

  /** The second operator of "a o1 b o2" first moves `o1` out if `o1`
      ranks at least as high. */
  lemma SecondOperator(a: string, o1: string, b: string, o2: string)
    requires IsNumber(a) && IsNumber(b)
    requires IsArithmeticOperator(o1) && IsArithmeticOperator(o2)
    ensures Scan([a, o1, b, o2]) ==
      if Precedence(o1) >= Precedence(o2) then Ok(Conversion([a, b, o1], [o2]))
      else Ok(Conversion([a, b], [o1, o2]))
  {
    ArithmeticOperators(o2);
    OneOperation(a, o1, b);
    var ts := [a, o1, b, o2];
    assert ts[..3] == [a, o1, b];
    var c := Conversion([a, b], [o1]);
    ScanLast(ts, c);
    OperatorStep(c, o2);
    if Precedence(o1) >= Precedence(o2) {
      assert MoveTop(c) == Conversion([a, b, o1], []);
      assert PopWhileNotLower(c, Precedence(o2)) == Conversion([a, b, o1], []);
      assert [] + [o2] == [o2];
    } else {
      assert PopWhileNotLower(c, Precedence(o2)) == c;
      assert [o1] + [o2] == [o1, o2];
    }
  }

  /** Three operands and two operators: the stacked operator is output
      before the incoming one when it ranks at least as high
      (calc.go:91), so equal ranks associate to the left and `*` and `/`
      bind tighter than `+` and `-`. */
  lemma ThreeOperands(a: string, o1: string, b: string, o2: string, d: string)
    requires IsNumber(a) && IsNumber(b) && IsNumber(d)
    requires IsArithmeticOperator(o1) && IsArithmeticOperator(o2)
    ensures ConvertTokens([a, o1, b, o2, d]) ==
      if Precedence(o1) >= Precedence(o2) then Ok([a, b, o1, d, o2]) else Ok([a, b, d, o2, o1])
  {
    SecondOperator(a, o1, b, o2);
    var ts := [a, o1, b, o2, d];
    assert ts[..4] == [a, o1, b, o2];
    if Precedence(o1) >= Precedence(o2) {
      ScanLast(ts, Conversion([a, b, o1], [o2]));
      NumberStep(Conversion([a, b, o1], [o2]), d);
      assert [a, b, o1] + [d] == [a, b, o1, d];
      assert MoveTop(Conversion([a, b, o1, d], [o2])) == Conversion([a, b, o1, d, o2], []);
      assert Drain(Conversion([a, b, o1, d], [o2])) == Ok([a, b, o1, d, o2]);
    } else {
      ScanLast(ts, Conversion([a, b], [o1, o2]));
      NumberStep(Conversion([a, b], [o1, o2]), d);
      assert [a, b] + [d] == [a, b, d];
      assert MoveTop(Conversion([a, b, d], [o1, o2])) == Conversion([a, b, d, o2], [o1]);
      assert MoveTop(Conversion([a, b, d, o2], [o1])) == Conversion([a, b, d, o2, o1], []);
      assert Drain(Conversion([a, b, d], [o1, o2])) == Drain(Conversion([a, b, d, o2], [o1]));
      assert Drain(Conversion([a, b, d, o2], [o1])) == Ok([a, b, d, o2, o1]);
    }
  }

  /** "1 - 2 - 3" becomes "1 2 - 3 -" and "1 + 2 * 3" becomes "1 2 3 * +". */
  lemma PrecedenceExamples()
    ensures ConvertTokens(["1", "-", "2", "-", "3"]) == Ok(["1", "2", "-", "3", "-"])
    ensures ConvertTokens(["1", "+", "2", "*", "3"]) == Ok(["1", "2", "3", "*", "+"])
  {
    DigitsAreNumbers("1");
    DigitsAreNumbers("2");
    DigitsAreNumbers("3");
    ThreeOperands("1", "-", "2", "-", "3");
    ThreeOperands("1", "+", "2", "*", "3");
  }

  /** "( x" leaves the number in the output and "(" on the stack. */
  lemma OpenThenNumber(x: string)
    requires IsNumber(x)
    ensures Scan(["(", x]) == Ok(Conversion([x], ["("]))
  {
    ParenthesisIsNotNumber("(");
    ParenthesisIsNotOperator("(");
    var ts := ["(", x];
    assert ts[..1][..0] == [];
    ScanLast(ts[..1], Conversion([], []));
    assert [] + ["("] == ["("];
    assert Scan(ts[..1]) == Ok(Conversion([], ["("]));
    ScanLast(ts, Conversion([], ["("]));
    NumberStep(Conversion([], ["("]), x);
    assert [] + [x] == [x];
  }

  /** An unranked operator after "( x" moves the "(" to the output. */
  lemma OpenNumberUnranked(x: string, op: string)
    requires IsNumber(x) && IsOperator(op) && Precedence(op) == 0
    ensures Scan(["(", x, op]) == Ok(Conversion([x, "("], [op]))
  {
    OpenThenNumber(x);
    var ts := ["(", x, op];
    assert ts[..2] == ["(", x];
    var c := Conversion([x], ["("]);
    ScanLast(ts, c);
    OperatorStep(c, op);
    assert MoveTop(c) == Conversion([x, "("], []);
    assert PopWhileNotLower(c, 0) == Conversion([x, "("], []);
    assert [] + [op] == [op];
  }

  /** An operator outside the precedence table (a multi-character piece
      such as "+-", which `IsOperator` accepts) ranks 0 like "(", so the
      operator loop moves an open "(" to the output: "( x op y" converts
      without error, with a parenthesis in its output.  This is why the
      parenthesis guarantees above assume single-character operators. */
  lemma UnrankedOperatorLeaksParenthesis(x: string, op: string, y: string)
    requires IsNumber(x) && IsNumber(y) && IsOperator(op) && Precedence(op) == 0
    ensures ConvertTokens(["(", x, op, y]) == Ok([x, "(", y, op])
  {
    UnrankedScan(x, op, y);
    ParenthesisIsNotOperator("(");
    ParenthesisIsNotOperator(")");
    var c := Conversion([x, "(", y], [op]);
    assert MoveTop(c) == Conversion([x, "(", y, op], []);
    assert Drain(c) == Ok([x, "(", y, op]);
  }

  lemma UnrankedScan(x: string, op: string, y: string)
    requires IsNumber(x) && IsNumber(y) && IsOperator(op) && Precedence(op) == 0
    ensures Scan(["(", x, op, y]) == Ok(Conversion([x, "(", y], [op]))
  {
    OpenNumberUnranked(x, op);
    var ts := ["(", x, op, y];
    assert ts[..3] == ["(", x, op];
    var c := Conversion([x, "("], [op]);
    ScanLast(ts, c);
    NumberStep(c, y);
    assert [x, "("] + [y] == [x, "(", y];
  }

  /** "( 1 +- 2" converts to "1 ( 2 +-". */
  lemma MultiCharacterOperatorLeaksParenthesis()
    ensures ConvertTokens(["(", "1", "+-", "2"]) == Ok(["1", "(", "2", "+-"])
  {
    DigitsAreNumbers("1");
    DigitsAreNumbers("2");
    assert Operands[0..2] == "+-";
    UnrankedOperatorLeaksParenthesis("1", "+-", "2");
  }
}
