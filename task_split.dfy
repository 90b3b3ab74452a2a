/** `SplitASTIntoTasks` and `UpdateASTWithResult` of pkg/calc/calc.go
    (lines 161-201): cutting a syntax tree into one task per operation, in
    the order a post-order walk meets them, and the update pass over the tree.

    The Go function keeps its counter `taskID` and its slice `tasks` in local
    variables that a recursive closure updates; here they are the fields of a
    `TaskSplitter` object whose recursive method `Traverse` is the closure. */
module TaskSplit {
  import opened Tokens
  import opened Ast

  /** The task of operation node `m` under the id `id` (calc.go:177-182):
      each argument is what `ParseNumber` reads off a child. */
  function TaskOf(m: Node, id: int): (t: Task)
    requires m.Operation?
    ensures t.id == id && t.operation == m.operator
    ensures m.left.Number? ==> t.arg1 == m.left.value
    ensures m.left.Operation? ==> t.arg1 == Zero
    ensures m.right.Number? ==> t.arg2 == m.right.value
    ensures m.right.Operation? ==> t.arg2 == Zero
  {
    Task(id, ParseNumber(m.left), ParseNumber(m.right), m.operator)
  }

  predicate AllOperations(ms: seq<Node>) {
    forall i :: 0 <= i < |ms| ==> ms[i].Operation?
  }

  /** The tasks of the operation nodes `ms`, numbered consecutively from
      `start + 1`. */
  function Numbered(ms: seq<Node>, start: int): (ts: seq<Task>)
    requires AllOperations(ms)
    ensures |ts| == |ms|
  {
    if ms == [] then [] else [TaskOf(ms[0], start + 1)] + Numbered(ms[1..], start + 1)
  }

  /** Task `i` of a numbered list is the task of node `i`, with id `start + i + 1`. */
  lemma {:induction false} NumberedIndex(ms: seq<Node>, start: int, i: nat)
    requires AllOperations(ms) && i < |ms|
    ensures Numbered(ms, start)[i] == TaskOf(ms[i], start + i + 1)
  {
    if i > 0 {
      NumberedIndex(ms[1..], start + 1, i - 1);
    }
  }

  lemma {:induction false} NumberedAppend(a: seq<Node>, b: seq<Node>, start: int)
    requires AllOperations(a) && AllOperations(b)
    ensures AllOperations(a + b)
    ensures Numbered(a + b, start) == Numbered(a, start) + Numbered(b, start + |a|)
  {
    if a != [] {
      assert (a + b)[1..] == a[1..] + b;
      NumberedAppend(a[1..], b, start + 1);
    } else {
      assert a + b == b;
    }
  }

  /** The numbered tasks of an operation: its left subtree's, its right
      subtree's, then its own. */
  lemma NumberedOperation(n: Node, start: int)
    requires n.Operation?
    ensures Numbered(OperationNodes(n), start) ==
      Numbered(OperationNodes(n.left), start)
      + Numbered(OperationNodes(n.right), start + OperationCount(n.left))
      + [TaskOf(n, start + OperationCount(n.left) + OperationCount(n.right) + 1)]
  {
    var ml := OperationNodes(n.left);
    var mr := OperationNodes(n.right);
    assert OperationNodes(n) == ml + mr + [n];
    NumberedAppend(ml, mr, start);
    NumberedAppend(ml + mr, [n], start);
    assert Numbered([n], start + |ml + mr|) == [TaskOf(n, start + |ml + mr| + 1)];
  }

  /** The state of `SplitASTIntoTasks`'s closure: the last id handed out
      and the tasks made so far. */
  class TaskSplitter {
    var taskId: int
    var tasks: seq<Task>

    constructor ()
      ensures taskId == 0 && tasks == []
    {
      taskId := 0;
      tasks := [];
    }

    /** The closure `traverse` (calc.go:166-184): both subtrees first, then
        the task of this operation under the next id.  It appends the
        operations of `n` in post-order, numbered after the ids used. */
    method Traverse(n: Node)
      modifies this
      ensures taskId == old(taskId) + OperationCount(n)
      ensures tasks == old(tasks) + Numbered(OperationNodes(n), old(taskId))
      decreases n
    {
      if n.Number? {
        return;
      }
      ghost var start := taskId;
      Traverse(n.left);
      Traverse(n.right);
      taskId := taskId + 1;
      var task := Task(taskId, ParseNumber(n.left), ParseNumber(n.right), n.operator);
      tasks := tasks + [task];
      NumberedOperation(n, start);
    }
  }

  /** `SplitASTIntoTasks` (calc.go:161-189): the tasks of the tree's
      operation nodes in post-order, numbered from 1. */
  method SplitASTIntoTasks(node: Node) returns (tasks: seq<Task>)
    ensures tasks == Numbered(OperationNodes(node), 0)
  {
    var splitter := new TaskSplitter();
    splitter.Traverse(node);
    tasks := splitter.tasks;
  }

  // ---------------------------------------------------------------------
  // What the task list of a tree is.

  /** There is one task per operation, task `i` has id `i + 1` and is the
      task of the `i`-th operation node met in post-order. */
  lemma {:induction false} TaskListShape(n: Node, i: nat)
    requires i < OperationCount(n)
    ensures |Numbered(OperationNodes(n), 0)| == OperationCount(n) == LeafCount(n) - 1
    ensures Numbered(OperationNodes(n), 0)[i] == TaskOf(OperationNodes(n)[i], i + 1)
    ensures Numbered(OperationNodes(n), 0)[i].id == i + 1
  {
    LeavesOutnumberOperations(n);
    NumberedIndex(OperationNodes(n), 0, i);
  }

  /** The last task is that of the root operation; a lone number has none. */
  lemma {:induction false} RootTaskIsLast(n: Node)
    ensures n.Number? ==> Numbered(OperationNodes(n), 0) == []
    ensures n.Operation? ==>
      Numbered(OperationNodes(n), 0)[OperationCount(n) - 1] == TaskOf(n, OperationCount(n))
  {
    if n.Operation? {
      NumberedIndex(OperationNodes(n), 0, OperationCount(n) - 1);
    }
  }

  /** Each operation node of `n` is a subtree of `n`. */
  predicate SubtreeOf(m: Node, n: Node)
    decreases n
  {
    m == n || (n.Operation? && (SubtreeOf(m, n.left) || SubtreeOf(m, n.right)))
  }

  /** In the post-order list, an operation child comes before its parent,
      so a task whose argument is another operation's result is numbered
      after that operation's task. */
  lemma {:induction false} ChildrenComeFirst(n: Node, i: nat)
    requires i < |OperationNodes(n)|
    ensures SubtreeOf(OperationNodes(n)[i], n)
    ensures OperationNodes(n)[i].left.Operation? ==>
      exists j :: 0 <= j < i && OperationNodes(n)[j] == OperationNodes(n)[i].left
    ensures OperationNodes(n)[i].right.Operation? ==>
      exists j :: 0 <= j < i && OperationNodes(n)[j] == OperationNodes(n)[i].right
    decreases n
  {
    var ms := OperationNodes(n);
    var ml := OperationNodes(n.left);
    var mr := OperationNodes(n.right);
    var m := ms[i];
    if i < |ml| {
      OperationNodesLeft(n, i);
      ChildrenComeFirst(n.left, i);
      if m.left.Operation? {
        var j :| 0 <= j < i && ml[j] == m.left;
        OperationNodesLeft(n, j);
      }
      if m.right.Operation? {
        var j :| 0 <= j < i && ml[j] == m.right;
        OperationNodesLeft(n, j);
      }
    } else if i < |ml| + |mr| {
      var k := i - |ml|;
      OperationNodesRight(n, k);
      ChildrenComeFirst(n.right, k);
      if m.left.Operation? {
        var j :| 0 <= j < k && mr[j] == m.left;
        OperationNodesRight(n, j);
      }
      if m.right.Operation? {
        var j :| 0 <= j < k && mr[j] == m.right;
        OperationNodesRight(n, j);
      }
    } else {
      OperationNodesRoot(n);
      if n.left.Operation? {
        LastOperationIsRoot(n.left);
        OperationNodesLeft(n, |ml| - 1);
      }
      if n.right.Operation? {
        LastOperationIsRoot(n.right);
        OperationNodesRight(n, |mr| - 1);
      }
    }
  }

  /** Where the left subtree's operations sit in the list of `n`. */
  lemma OperationNodesLeft(n: Node, i: nat)
    requires n.Operation? && i < |OperationNodes(n.left)|
    ensures i < |OperationNodes(n)| && OperationNodes(n)[i] == OperationNodes(n.left)[i]
  {
    assert OperationNodes(n) == OperationNodes(n.left) + OperationNodes(n.right) + [n];
  }

  /** Where the right subtree's operations sit in the list of `n`. */
  lemma OperationNodesRight(n: Node, i: nat)
    requires n.Operation? && i < |OperationNodes(n.right)|
    ensures var k := |OperationNodes(n.left)| + i;
      k < |OperationNodes(n)| && OperationNodes(n)[k] == OperationNodes(n.right)[i]
  {
    assert OperationNodes(n) == OperationNodes(n.left) + OperationNodes(n.right) + [n];
  }

  lemma OperationNodesRoot(n: Node)
    requires n.Operation?
    ensures var k := |OperationNodes(n.left)| + |OperationNodes(n.right)|;
      k == |OperationNodes(n)| - 1 && OperationNodes(n)[k] == n
  {
  }

  lemma LastOperationIsRoot(n: Node)
    requires n.Operation?
    ensures |OperationNodes(n)| > 0 && OperationNodes(n)[|OperationNodes(n)| - 1] == n
  {
  }

  /** The operators of the tasks, in order, are the operator tokens of the
      tree's post-order text. */
  lemma {:induction false} TaskOperators(n: Node)
    requires WellTyped(n)
    ensures OperatorsOf(OperationNodes(n)) == OperatorTokens(Postorder(n))
    decreases n
  {
    match n
    case Number(v) =>
      TokensOfSingleton(v.literal);
      NumberIsNotOperator(v.literal);
    case Operation(op, l, r) =>
      TaskOperators(l);
      TaskOperators(r);
      OperatorsOfAppend(OperationNodes(l), OperationNodes(r));
      OperatorsOfAppend(OperationNodes(l) + OperationNodes(r), [n]);
      OperatorTokensAppend(Postorder(l) + Postorder(r), [op]);
      OperatorTokensAppend(Postorder(l), Postorder(r));
      TokensOfSingleton(op);
  }

  /** The operators of a list of operation nodes. */
  function OperatorsOf(ms: seq<Node>): (os: seq<string>)
    requires AllOperations(ms)
    ensures |os| == |ms|
  {
    if ms == [] then [] else OperatorsOf(ms[..|ms| - 1]) + [ms[|ms| - 1].operator]
  }

  lemma {:induction false} OperatorsOfAppend(a: seq<Node>, b: seq<Node>)
    requires AllOperations(a) && AllOperations(b)
    ensures AllOperations(a + b)
    ensures OperatorsOf(a + b) == OperatorsOf(a) + OperatorsOf(b)
    decreases |b|
  {
    if b == [] {
      assert a + b == a;
    } else {
      assert (a + b)[..|a + b| - 1] == a + b[..|b| - 1];
      OperatorsOfAppend(a, b[..|b| - 1]);
      assert (a + b)[|a + b| - 1] == b[|b| - 1];
    }
  }

  lemma {:induction false} OperatorsOfIndex(ms: seq<Node>, i: nat)
    requires AllOperations(ms) && i < |ms|
    ensures OperatorsOf(ms)[i] == ms[i].operator
    decreases |ms|
  {
    if i < |ms| - 1 {
      OperatorsOfIndex(ms[..|ms| - 1], i);
    }
  }

  /** Task `i` carries the `i`-th operator token of the tree's post-order
      text: the workers see the operators in the order the RPN lists them. */
  lemma TaskOperationsFollowText(n: Node, i: nat)
    requires WellTyped(n) && i < OperationCount(n)
    ensures i < |OperatorTokens(Postorder(n))|
    ensures Numbered(OperationNodes(n), 0)[i].operation == OperatorTokens(Postorder(n))[i]
  {
    TaskOperators(n);
    NumberedIndex(OperationNodes(n), 0, i);
    OperatorsOfIndex(OperationNodes(n), i);
  }

  // ---------------------------------------------------------------------
  // UpdateASTWithResult.

  /** `UpdateASTWithResult` (calc.go:192-201): a walk over the tree that
      visits both children of every operation and writes nothing, so the
      tree after the call is the tree before it; `taskId` and `result` are
      not used.  A nil tree (`None`) returns at once. */
  function UpdateASTWithResult(node: Option<Node>, taskId: int, result: Value): (after: Option<Node>)
    ensures after == node
    decreases if node.Some? then LeafCount(node.value) + OperationCount(node.value) else 0
  {
    match node
    case None => None
    case Some(n) =>
      if n.Operation? then
        var l := UpdateASTWithResult(Some(n.left), taskId, result);
        var r := UpdateASTWithResult(Some(n.right), taskId, result);
        Some(Operation(n.operator, l.value, r.value))
      else
        node
  }
}
