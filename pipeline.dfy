/** How the stages of pkg/calc/calc.go fit together: `InfixToRPN` hands its
    result to `CreateASTFromRPN` as text, and the tree goes to
    `SplitASTIntoTasks`. */
module Pipeline {
  import opened GoStrings
  import opened Tokens
  import opened Ast
  import opened ShuntingYard
  import opened AstBuilder
  import opened TaskSplit

  /** The RPN text of a successful conversion splits back into exactly the
      token list the converter produced: joining with single spaces loses
      nothing, because every output token is a word of the input. */
  lemma RpnTextRoundTrip(expr: string)
    requires ConvertText(expr).Ok?
    ensures ConvertTokens(Fields(expr)).Ok?
    ensures Fields(ConvertText(expr).value) == ConvertTokens(Fields(expr)).value
  {
    ConvertKeepsWords(Fields(expr));
    FieldsOfJoin(ConvertTokens(Fields(expr)).value);
  }

  /** When both stages succeed, the tree is the converter's output read as
      a post-order, its leaves are the input's numbers in their input order,
      and its operations are the input's operators, each once. */
  lemma ExpressionTree(expr: string)
    requires ConvertText(expr).Ok? && BuildText(ConvertText(expr).value).Ok?
    ensures var t := BuildText(ConvertText(expr).value).value;
      WellTyped(t) &&
      Postorder(t) == ConvertTokens(Fields(expr)).value &&
      NumberTokens(Postorder(t)) == NumberTokens(Fields(expr)) &&
      multiset(OperatorTokens(Postorder(t))) == multiset(OperatorTokens(Fields(expr)))
  {
    RpnTextRoundTrip(expr);
    var ts := ConvertTokens(Fields(expr)).value;
    BuildIsPostorder(ts);
    ConvertKeepsNumberOrder(Fields(expr));
    ConvertEmitsOperatorsOnce(Fields(expr));
  }

  /** The tasks of the tree of an expression: one per operator of the
      input, and task `i` (id `i + 1`) carries the `i`-th operator of the
      RPN text. */
  lemma ExpressionTasks(expr: string, i: nat)
    requires ConvertText(expr).Ok? && BuildText(ConvertText(expr).value).Ok?
    requires i < |OperatorTokens(Fields(expr))|
    ensures var t := BuildText(ConvertText(expr).value).value;
      var tasks := Numbered(OperationNodes(t), 0);
      var ops := OperatorTokens(Fields(ConvertText(expr).value));
      |tasks| == |OperatorTokens(Fields(expr))| == |ops| &&
      tasks[i].id == i + 1 && tasks[i].operation == ops[i]
  {
    ExpressionTree(expr);
    RpnTextRoundTrip(expr);
    var t := BuildText(ConvertText(expr).value).value;
    var ts := Fields(ConvertText(expr).value);
    BuiltTreeCounts(ts);
    assert |multiset(OperatorTokens(Postorder(t)))| == |multiset(OperatorTokens(Fields(expr)))|;
    TaskListShape(t, i);
    TaskOperationsFollowText(t, i);
  }
}
