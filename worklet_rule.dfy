/**
 * The `require-worklet-directive` lint rule of
 * eslint-plugin/rules/require-worklet-directive.js: a function literal passed as first
 * argument to `createAnimatedPressable` must start with the `'worklet'` directive.
 * The rule's single `context.report` call is the visitor's result.
 */
module WorkletRule {
  import opened Wrappers

  datatype LiteralValue = StringValue(s: string) | NumberValue(n: real) | BooleanValue(b: bool) | NullValue

  /** The syntax-tree node kinds the rule tells apart; every other kind is `OtherNode`. */
  datatype Node =
    | Identifier(name: string)
    | CallExpression(callee: Node, arguments: seq<Node>)
    | ArrowFunctionExpression(body: Node)
    | FunctionExpression(body: Node)
    | BlockStatement(statements: seq<Node>)
    | ExpressionStatement(expression: Node)
    | Literal(value: LiteralValue)
    | OtherNode(kind: string)

  const TargetName := "createAnimatedPressable"
  const MissingWorklet := "missingWorklet"

  /** A report: the offending node and the message id. */
  datatype Report = Report(node: Node, messageId: string)

  /** A call of the bare identifier `createAnimatedPressable`. */
  predicate IsTargetCall(call: Node)
    requires call.CallExpression?
  {
    call.callee == Identifier(TargetName)
  }

  predicate IsFunctionLiteral(n: Node) {
    n.ArrowFunctionExpression? || n.FunctionExpression?
  }

  /** The statement `'worklet';`. */
  predicate IsWorkletDirective(statement: Node) {
    statement == ExpressionStatement(Literal(StringValue("worklet")))
  }

  /** A function literal whose body is a block that opens with the directive. */
  predicate StartsWithWorklet(fn: Node)
    requires IsFunctionLiteral(fn)
  {
    fn.body.BlockStatement? && |fn.body.statements| > 0 && IsWorkletDirective(fn.body.statements[0])
  }

  /**
   * The `CallExpression` visitor. It reports, on the first argument, exactly when the
   * call is to `createAnimatedPressable`, the first argument is a function literal,
   * that literal is an arrow function or has a block body, and the block does not open
   * with the `'worklet'` directive; every other call passes.
   */
  function CheckCallExpression(node: Node): (report: Option<Report>)
    requires node.CallExpression?
    ensures report.Some? <==>
              && IsTargetCall(node)
              && |node.arguments| > 0
              && IsFunctionLiteral(node.arguments[0])
              && (node.arguments[0].ArrowFunctionExpression? || node.arguments[0].body.BlockStatement?)
              && !StartsWithWorklet(node.arguments[0])
    ensures report.Some? ==> report.value == Report(node.arguments[0], MissingWorklet)
  {
    if node.callee.Identifier? && node.callee.name == TargetName then
      if |node.arguments| == 0 then None
      else
        var firstArg := node.arguments[0];
        if firstArg.ArrowFunctionExpression? || firstArg.FunctionExpression? then
          var body := firstArg.body;
          if firstArg.ArrowFunctionExpression? && !body.BlockStatement? then
            Some(Report(firstArg, MissingWorklet))
          else if body.BlockStatement? then
            var statements := body.statements;
            if |statements| == 0 then
              Some(Report(firstArg, MissingWorklet))
            else
              var firstStatement := statements[0];
              if firstStatement.ExpressionStatement?
                 && firstStatement.expression.Literal?
                 && firstStatement.expression.value == StringValue("worklet")
              then None
              else Some(Report(firstArg, MissingWorklet))
          else None
        else None
    else None
  }

  /** The call `createAnimatedPressable(fn)`. */
  function Call(fn: Node): (call: Node)
    ensures call.CallExpression? && IsTargetCall(call) && call.arguments == [fn]
  {
    CallExpression(Identifier(TargetName), [fn])
  }

  /** An arrow function with an expression body always reports. */
  lemma ExpressionBodyReports(body: Node)
    requires !body.BlockStatement?
    ensures CheckCallExpression(Call(ArrowFunctionExpression(body))).Some?
  {
  }

  /** An empty block reports, for either kind of function literal. */
  lemma EmptyBlockReports(arrow: bool)
    ensures var fn := if arrow then ArrowFunctionExpression(BlockStatement([])) else FunctionExpression(BlockStatement([]));
            CheckCallExpression(Call(fn)).Some?
  {
  }

  /**
   * Only the first statement counts: a block whose first statement is not the directive
   * reports even when the directive appears later on.
   */
  lemma LaterDirectiveStillReports(first: Node, rest: seq<Node>, arrow: bool)
    requires !IsWorkletDirective(first)
    requires ExpressionStatement(Literal(StringValue("worklet"))) in rest
    ensures var block := BlockStatement([first] + rest);
            var fn := if arrow then ArrowFunctionExpression(block) else FunctionExpression(block);
            CheckCallExpression(Call(fn)) == Some(Report(fn, MissingWorklet))
  {
  }

  /** Statements after the first never change the verdict. */
  lemma OnlyFirstStatementMatters(first: Node, rest1: seq<Node>, rest2: seq<Node>, arrow: bool)
    ensures var f1 := if arrow then ArrowFunctionExpression(BlockStatement([first] + rest1)) else FunctionExpression(BlockStatement([first] + rest1));
            var f2 := if arrow then ArrowFunctionExpression(BlockStatement([first] + rest2)) else FunctionExpression(BlockStatement([first] + rest2));
            CheckCallExpression(Call(f1)).Some? == CheckCallExpression(Call(f2)).Some?
  {
  }

  /** Calls of anything but the bare identifier `createAnimatedPressable` never report. */
  lemma OtherCalleesPass(callee: Node, arguments: seq<Node>)
    requires callee != Identifier(TargetName)
    ensures CheckCallExpression(CallExpression(callee, arguments)).None?
  {
  }
}
