/** `CreateASTFromRPN` of pkg/calc/calc.go (lines 124-158): building the
    syntax tree of postfix (RPN) text with a stack of nodes.

    As for the converter, the loop is specified token by token: `BuildRun(ts)`
    is the node stack after reading `ts`, or the error that stopped the loop,
    and `BuildTokens` adds the final check that exactly one node is left.  The
    lemmas say which token lists are accepted and that building is the inverse
    of writing a tree in post-order. */
module AstBuilder {
  import opened Tokens
  import opened Ast
  import opened GoStrings

  /** One pass of the token loop (calc.go:128-151): a number is pushed as a
      leaf, an operator pops two nodes and pushes the operation over them
      (the first popped is the right operand), anything else is an error. */
  function BuildStep(stack: seq<Node>, token: string): Result<seq<Node>> {
    if IsNumber(token) then
      match NewNumberASTNode(token)
      case Err(e) => Err(e)
      case Ok(node) => Ok(stack + [node])
    else if IsOperator(token) then
      if |stack| < 2 then Err(ExtraOperands)
      else Ok(stack[..|stack| - 2] + [Operation(token, stack[|stack| - 2], stack[|stack| - 1])])
    else
      Err(InvalidToken(token))
  }

  /** The node stack after the token loop has read `ts`, or its error. */
  function BuildRun(ts: seq<string>): Result<seq<Node>> {
    if ts == [] then Ok([])
    else
      match BuildRun(ts[..|ts| - 1])
      case Err(e) => Err(e)
      case Ok(s) => BuildStep(s, ts[|ts| - 1])
  }

  /** The tree of a token list (calc.go:153-157). */
  function BuildTokens(ts: seq<string>): Result<Node> {
    match BuildRun(ts)
    case Err(e) => Err(e)
    case Ok(s) => if |s| == 1 then Ok(s[0]) else Err(InvalidRpnExpression)
  }

  /** The tree of an RPN text, split into tokens by `strings.Fields`. */
  function BuildText(rpn: string): Result<Node> {
    BuildTokens(Fields(rpn))
  }

  /** `CreateASTFromRPN`. */
  method CreateASTFromRPN(rpn: string) returns (r: Result<Node>)
    ensures r == BuildText(rpn)
  {
    var stack: seq<Node> := [];
    var tokens := Fields(rpn);
    for i := 0 to |tokens|
      invariant BuildRun(tokens[..i]) == Ok(stack)
    {
      var token := tokens[i];
      assert tokens[..i + 1][..i] == tokens[..i];
      if IsNumber(token) {
        var node := NewNumberASTNode(token);
        if node.Err? {
          assert false;
          return Err(Unknown);
        }
        stack := stack + [node.value];
      } else if IsOperator(token) {
        if |stack| < 2 {
          BuildErrorPersists(tokens, i + 1);
          assert tokens[..|tokens|] == tokens;
          return Err(ExtraOperands);
        }
        var right := stack[|stack| - 1];
        var left := stack[|stack| - 2];
        stack := stack[..|stack| - 2];
        stack := stack + [Operation(token, left, right)];
      } else {
        BuildErrorPersists(tokens, i + 1);
        assert tokens[..|tokens|] == tokens;
        return Err(InvalidToken(token));
      }
    }
    assert tokens[..|tokens|] == tokens;
    if |stack| != 1 {
      return Err(InvalidRpnExpression);
    }
    r := Ok(stack[0]);
  }

  /** Once the token loop has returned an error, later tokens do not matter. */
  lemma {:induction false} BuildErrorPersists(ts: seq<string>, k: nat)
    requires k <= |ts| && BuildRun(ts[..k]).Err?
    ensures BuildRun(ts) == BuildRun(ts[..k])
    decreases |ts| - k
  {
    if k < |ts| {
      var ts' := ts[..|ts| - 1];
      assert ts'[..k] == ts[..k];
      BuildErrorPersists(ts', k);
    } else {
      assert ts[..k] == ts;
    }
  }

  lemma BuildRunLast(ts: seq<string>, t: string)
    ensures BuildRun(ts + [t]) == if BuildRun(ts).Err? then BuildRun(ts) else BuildStep(BuildRun(ts).value, t)
  {
    assert (ts + [t])[..|ts|] == ts;
  }

  // ---------------------------------------------------------------------
  // Which token lists the loop reads to the end.

  /** Numbers pushed minus operators read: the stack height the loop keeps. */
  function Depth(ts: seq<string>): int {
    |NumberTokens(ts)| - |OperatorTokens(ts)|
  }

  /** Every token is a number or an operator, and every operator finds at
      least two nodes on the stack. */
  predicate Readable(ts: seq<string>) {
    ts == [] ||
    var p := ts[..|ts| - 1];
    var t := ts[|ts| - 1];
    Readable(p) && (IsNumber(t) || (IsOperator(t) && Depth(p) >= 2))
  }

  /** The tokens of a node stack, written out tree by tree in post-order. */
  function Flatten(s: seq<Node>): seq<string> {
    if s == [] then [] else Flatten(s[..|s| - 1]) + Postorder(s[|s| - 1])
  }

  predicate AllWellTyped(s: seq<Node>) {
    forall i :: 0 <= i < |s| ==> WellTyped(s[i])
  }

  lemma DepthOfSnoc(ts: seq<string>, t: string)
    ensures Depth(ts + [t]) == Depth(ts) + (if IsNumber(t) then 1 else 0) - (if IsOperator(t) then 1 else 0)
  {
    NumberTokensAppend(ts, [t]);
    OperatorTokensAppend(ts, [t]);
    TokensOfSingleton(t);
  }

  lemma FlattenSnoc(s: seq<Node>, n: Node)
    ensures Flatten(s + [n]) == Flatten(s) + Postorder(n)
  {
    assert (s + [n])[..|s|] == s;
  }

  /** What an accepted prefix leaves: a stack of well-typed trees, as many
      as the depth, which written out in post-order give the prefix back. */
  predicate StackOf(ts: seq<string>, s: seq<Node>) {
    |s| == Depth(ts) && AllWellTyped(s) && Flatten(s) == ts
  }

  lemma NumberKeepsStack(ts: seq<string>, s: seq<Node>, t: string)
    requires StackOf(ts, s) && IsNumber(t)
    ensures BuildStep(s, t) == Ok(s + [Number(Parsed(t))])
    ensures StackOf(ts + [t], s + [Number(Parsed(t))])
  {
    NumberIsNotOperator(t);
    DepthOfSnoc(ts, t);
    FlattenSnoc(s, Number(Parsed(t)));
  }

  /** The stack an operator token leaves behind. */
  function Combine(s: seq<Node>, t: string): seq<Node>
    requires |s| >= 2
  {
    s[..|s| - 2] + [Operation(t, s[|s| - 2], s[|s| - 1])]
  }

  lemma BuildOperatorStep(s: seq<Node>, t: string)
    requires IsOperator(t) && |s| >= 2
    ensures BuildStep(s, t) == Ok(Combine(s, t))
  {
    OperatorIsNotNumber(t);
  }

  lemma FlattenOperation(rest: seq<Node>, l: Node, r: Node, t: string)
    ensures Flatten(rest + [Operation(t, l, r)]) == Flatten(rest + [l] + [r]) + [t]
  {
    FlattenSnoc(rest + [l], r);
    FlattenSnoc(rest, l);
    FlattenSnoc(rest, Operation(t, l, r));
  }

  lemma {:induction false} FlattenCombine(s: seq<Node>, t: string)
    requires |s| >= 2
    ensures Flatten(Combine(s, t)) == Flatten(s) + [t]
  {
    var rest := s[..|s| - 2];
    var l := s[|s| - 2];
    var r := s[|s| - 1];
    assert Combine(s, t) == rest + [Operation(t, l, r)];
    assert s == rest + [l] + [r];
    FlattenOperation(rest, l, r, t);
  }

  lemma WellTypedCombine(s: seq<Node>, t: string)
    requires AllWellTyped(s) && IsOperator(t) && |s| >= 2
    ensures AllWellTyped(Combine(s, t))
  {
    var c := Combine(s, t);
    forall i | 0 <= i < |c| ensures WellTyped(c[i]) {
      if i < |s| - 2 {
        assert c[i] == s[i];
      } else {
        assert WellTyped(s[|s| - 2]) && WellTyped(s[|s| - 1]);
      }
    }
  }

  lemma OperatorKeepsStack(ts: seq<string>, s: seq<Node>, t: string)
    requires StackOf(ts, s) && IsOperator(t) && |s| >= 2
    ensures BuildStep(s, t) == Ok(Combine(s, t))
    ensures StackOf(ts + [t], Combine(s, t))
  {
    BuildOperatorStep(s, t);
    OperatorIsNotNumber(t);
    DepthOfSnoc(ts, t);
    FlattenCombine(s, t);
    WellTypedCombine(s, t);
  }

  /** The token loop reads `ts` to the end exactly when `ts` is readable,
      and then its stack is that of `StackOf`. */
  lemma {:induction false} BuildRunAccepts(ts: seq<string>)
    ensures BuildRun(ts).Ok? <==> Readable(ts)
    ensures BuildRun(ts).Ok? ==> StackOf(ts, BuildRun(ts).value)
  {
    if ts == [] {
      assert Flatten([]) == [];
    } else {
      var p := ts[..|ts| - 1];
      var t := ts[|ts| - 1];
      assert ts == p + [t];
      BuildRunAccepts(p);
      BuildRunLast(p, t);
      if BuildRun(p).Ok? {
        var s := BuildRun(p).value;
        if IsNumber(t) {
          NumberKeepsStack(p, s, t);
        } else if IsOperator(t) && |s| >= 2 {
          OperatorKeepsStack(p, s, t);
        }
      }
    }
  }

  /** The error the loop stops with: the first token that is neither a
      number nor an operator, or an operator short of operands. */
  lemma {:induction false} BuildRunErrors(ts: seq<string>)
    ensures BuildRun(ts).Err? ==>
      BuildRun(ts).error == ExtraOperands ||
      (BuildRun(ts).error.InvalidToken? && BuildRun(ts).error.token in ts &&
       !IsNumber(BuildRun(ts).error.token) && !IsOperator(BuildRun(ts).error.token))
  {
    if ts != [] {
      var p := ts[..|ts| - 1];
      var t := ts[|ts| - 1];
      BuildRunErrors(p);
      if BuildRun(p).Err? && BuildRun(p).error.InvalidToken? {
        assert BuildRun(p).error.token in p;
        assert forall x | x in p :: x in ts;
      }
    }
  }

  /** The error one pass returns: an operator with fewer than two nodes
      below it gives `ErrExtraOperands` (calc.go:136-137), and a token that
      is neither a number nor an operator gives "invalid token" naming it
      (calc.go:148-149). */
  lemma BuildStepErrors(s: seq<Node>, t: string)
    ensures IsOperator(t) && |s| < 2 ==> BuildStep(s, t) == Err(ExtraOperands)
    ensures !IsNumber(t) && !IsOperator(t) ==> BuildStep(s, t) == Err(InvalidToken(t))
  {
    if IsOperator(t) {
      OperatorIsNotNumber(t);
    }
  }

  /** The loop's stack after a readable prefix has one node per unit of
      depth. */
  lemma ReadableStack(p: seq<string>)
    requires Readable(p)
    ensures BuildRun(p).Ok? && |BuildRun(p).value| == Depth(p)
  {
    BuildRunAccepts(p);
  }

  /** The first token at which reading goes wrong decides the error: after
      a readable prefix, an operator with fewer than two nodes below it stops
      the loop with `ErrExtraOperands`, and a token that is neither a number
      nor an operator stops it with "invalid token" naming that token. */
  lemma BuildStopsAt(ts: seq<string>, k: nat)
    requires k < |ts| && Readable(ts[..k])
    ensures IsOperator(ts[k]) && Depth(ts[..k]) < 2 ==>
      BuildRun(ts) == Err(ExtraOperands) && BuildTokens(ts) == Err(ExtraOperands)
    ensures !IsNumber(ts[k]) && !IsOperator(ts[k]) ==>
      BuildRun(ts) == Err(InvalidToken(ts[k])) && BuildTokens(ts) == Err(InvalidToken(ts[k]))
  {
    ReadableStack(ts[..k]);
    var s := BuildRun(ts[..k]).value;
    NextTokenError(ts, k, s);
    if IsOperator(ts[k]) && |s| < 2 {
      StopsWith(ts, k, ExtraOperands);
    } else if !IsNumber(ts[k]) && !IsOperator(ts[k]) {
      StopsWith(ts, k, InvalidToken(ts[k]));
    }
  }

  lemma NextTokenError(ts: seq<string>, k: nat, s: seq<Node>)
    requires k < |ts| && BuildRun(ts[..k]) == Ok(s)
    ensures IsOperator(ts[k]) && |s| < 2 ==> BuildRun(ts[..k + 1]) == Err(ExtraOperands)
    ensures !IsNumber(ts[k]) && !IsOperator(ts[k]) ==> BuildRun(ts[..k + 1]) == Err(InvalidToken(ts[k]))
  {
    assert ts[..k + 1][..k] == ts[..k];
    BuildStepErrors(s, ts[k]);
  }

  lemma StopsWith(ts: seq<string>, k: nat, e: CalcError)
    requires k < |ts| && BuildRun(ts[..k + 1]) == Err(e)
    ensures BuildRun(ts) == Err(e) && BuildTokens(ts) == Err(e)
  {
    BuildErrorPersists(ts, k + 1);
  }

  /** A text's tree exists exactly when the token loop reads it and leaves
      one tree: a readable list of depth one. */
  lemma BuildTokensAccepts(ts: seq<string>)
    ensures BuildTokens(ts).Ok? <==> Readable(ts) && Depth(ts) == 1
    ensures BuildTokens(ts).Err? && Readable(ts) ==> BuildTokens(ts).error == InvalidRpnExpression
  {
    BuildRunAccepts(ts);
  }

  // ---------------------------------------------------------------------
  // Building is the inverse of writing a tree in post-order.

  lemma BuildLeafAfter(p: seq<string>, s: seq<Node>, lit: string)
    requires BuildRun(p) == Ok(s) && IsNumber(lit)
    ensures BuildRun(p + [lit]) == Ok(s + [Number(Parsed(lit))])
  {
    BuildRunLast(p, lit);
  }

  lemma BuildOperationAfter(q: seq<string>, s: seq<Node>, l: Node, r: Node, op: string)
    requires BuildRun(q) == Ok(s + [l] + [r]) && IsOperator(op)
    ensures BuildRun(q + [op]) == Ok(s + [Operation(op, l, r)])
  {
    BuildRunLast(q, op);
    BuildOperatorStep(s + [l] + [r], op);
    var u := s + [l] + [r];
    assert u[..|u| - 2] == s;
  }

  /** Reading a well-typed tree's post-order pushes exactly that tree. */
  lemma {:induction false} BuildPostorder(p: seq<string>, s: seq<Node>, n: Node)
    requires BuildRun(p) == Ok(s) && WellTyped(n)
    ensures BuildRun(p + Postorder(n)) == Ok(s + [n])
    decreases n
  {
    match n
    case Number(v) =>
      BuildLeafAfter(p, s, v.literal);
    case Operation(op, l, r) =>
      BuildPostorder(p, s, l);
      BuildPostorder(p + Postorder(l), s + [l], r);
      PostorderAfter(p, op, l, r);
      BuildOperationAfter(p + Postorder(l) + Postorder(r), s, l, r, op);
  }

  lemma PostorderAfter(p: seq<string>, op: string, l: Node, r: Node)
    ensures p + Postorder(Operation(op, l, r)) == p + Postorder(l) + Postorder(r) + [op]
  {
  }

  /** Every well-typed tree is rebuilt from its post-order tokens. */
  lemma BuildInvertsPostorder(n: Node)
    requires WellTyped(n)
    ensures BuildTokens(Postorder(n)) == Ok(n)
  {
    BuildPostorder([], [], n);
    assert [] + Postorder(n) == Postorder(n);
  }

  /** What is built is well typed and written in post-order gives the
      tokens back, so the two directions together say that
      `BuildTokens(ts) == Ok(n)` exactly when `ts` is `n`'s post-order. */
  lemma BuildIsPostorder(ts: seq<string>)
    ensures BuildTokens(ts).Ok? ==> WellTyped(BuildTokens(ts).value) && Postorder(BuildTokens(ts).value) == ts
  {
    BuildRunAccepts(ts);
    if BuildTokens(ts).Ok? {
      var s := BuildRun(ts).value;
      assert s[..0] == [];
      assert Flatten(s) == Postorder(s[0]);
    }
  }

  /** A built tree has a leaf per number token and a node per operator. */
  lemma BuiltTreeCounts(ts: seq<string>)
    requires BuildTokens(ts).Ok?
    ensures LeafCount(BuildTokens(ts).value) == |NumberTokens(ts)|
    ensures OperationCount(BuildTokens(ts).value) == |OperatorTokens(ts)|
  {
    BuildIsPostorder(ts);
    BuildTokensAccepts(ts);
    var n := BuildTokens(ts).value;
    PostorderTokens(n);
  }

  /** The post-order of a well-typed tree holds one number per leaf and one
      operator per operation. */
  lemma {:induction false} PostorderTokens(n: Node)
    requires WellTyped(n)
    ensures |NumberTokens(Postorder(n))| == LeafCount(n)
    ensures |OperatorTokens(Postorder(n))| == OperationCount(n)
  {
    match n
    case Number(v) =>
      TokensOfSingleton(v.literal);
      NumberIsNotOperator(v.literal);
    case Operation(op, l, r) =>
      PostorderTokens(l);
      PostorderTokens(r);
      NumberTokensAppend(Postorder(l) + Postorder(r), [op]);
      NumberTokensAppend(Postorder(l), Postorder(r));
      OperatorTokensAppend(Postorder(l) + Postorder(r), [op]);
      OperatorTokensAppend(Postorder(l), Postorder(r));
      TokensOfSingleton(op);
      OperatorIsNotNumber(op);
  }
}
