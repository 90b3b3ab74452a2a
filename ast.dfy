/** The data of pkg/calc/calc.go: the abstract syntax tree (`ASTNode`), the
    task record (`Task`), the error values, and the two node helpers
    `NewNumberASTNode` and `ParseNumber`. */
module Ast {
  import opened Tokens

  /** The error values the calculator returns. */
  datatype CalcError =
    | InvalidToken(token: string)   // fmt.Errorf("invalid token: %s", token)
    | MismatchedParentheses         // errors.New("mismatched parentheses")
    | ExtraOperands                 // ErrExtraOperands
    | Unknown                       // ErrUnknown
    | InvalidRpnExpression          // errors.New("invalid RPN expression")

  datatype Result<T> = Ok(value: T) | Err(error: CalcError)

  datatype Option<T> = None | Some(value: T)

  /** A float64 as the calculator handles it: it is only ever parsed from a
      literal or left at Go's zero value, and is never computed with here,
      so it is kept as the literal it came from. */
  datatype Value = Zero | Parsed(literal: string)

  /** `ASTNode`: a number leaf (`NumberType`, with its `Value`) or an
      operation (`OperationType`, with its `Operator`, `Left` and `Right`). */
  datatype Node =
    | Number(value: Value)
    | Operation(operator: string, left: Node, right: Node)

  /** `Task`: one binary operation for a worker. */
  datatype Task = Task(id: int, arg1: Value, arg2: Value, operation: string)

  /** A tree as the builder makes it: every leaf holds a parsed number
      literal and every operation an operator token. */
  predicate WellTyped(n: Node) {
    match n
    case Number(v) => v.Parsed? && IsNumber(v.literal)
    case Operation(op, l, r) => IsOperator(op) && WellTyped(l) && WellTyped(r)
  }

  function LeafCount(n: Node): nat {
    match n
    case Number(_) => 1
    case Operation(_, l, r) => LeafCount(l) + LeafCount(r)
  }

  function OperationCount(n: Node): nat {
    match n
    case Number(_) => 0
    case Operation(_, l, r) => OperationCount(l) + OperationCount(r) + 1
  }

  /** The text a leaf's value was parsed from. */
  function LiteralOf(v: Value): string {
    match v
    case Parsed(s) => s
    case Zero => "0"
  }

  /** The postfix (RPN) token list of a tree: left subtree, right subtree,
      then the operator. */
  function Postorder(n: Node): (ts: seq<string>)
    ensures |ts| == LeafCount(n) + OperationCount(n)
  {
    match n
    case Number(v) => [LiteralOf(v)]
    case Operation(op, l, r) => Postorder(l) + Postorder(r) + [op]
  }

  /** The operation nodes of a tree, in post-order. */
  function OperationNodes(n: Node): (ms: seq<Node>)
    ensures |ms| == OperationCount(n)
    ensures forall i :: 0 <= i < |ms| ==> ms[i].Operation?
  {
    match n
    case Number(_) => []
    case Operation(_, l, r) => OperationNodes(l) + OperationNodes(r) + [n]
  }

  /** A binary tree has one more leaf than it has operations. */
  lemma {:induction false} LeavesOutnumberOperations(n: Node)
    ensures LeafCount(n) == OperationCount(n) + 1
  {
    match n
    case Number(_) =>
    case Operation(_, l, r) =>
      LeavesOutnumberOperations(l);
      LeavesOutnumberOperations(r);
  }

  /** `NewNumberASTNode` (calc.go:28-40).  The `ErrParseFloat` branch needs
      ParseFloat to fail after `isNumber` saw it succeed, which cannot happen. */
  function NewNumberASTNode(value: string): (r: Result<Node>)
    ensures r.Ok? <==> IsNumber(value)
    ensures r.Err? ==> r.error == Unknown
    ensures r.Ok? ==> r.value.Number? && WellTyped(r.value) && Postorder(r.value) == [value]
  {
    if IsNumber(value) then Ok(Number(Parsed(value))) else Err(Unknown)
  }

  /** `ParseNumber` (calc.go:74-79): a leaf's value, and 0 for an operation. */
  function ParseNumber(n: Node): (v: Value)
    ensures n.Number? ==> v == n.value
    ensures n.Operation? ==> v == Zero
  {
    if n.Number? then n.value else Zero
  }
}
