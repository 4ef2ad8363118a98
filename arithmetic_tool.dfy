/**
 * The arithmetic calculator tool (tools/arithmetic_tool.py): a recursive
 * evaluator over an already-parsed Python expression tree, the string
 * the expression path returns, the keyword-dispatched "basic operation"
 * calculator, and the dispatch in `_run` that picks between them.
 *
 * Python numbers are modelled by exact reals. Three things the tool takes
 * from its host are parameters (see `Host`): Python's parser, the `**`
 * operator, and the conversion of a number to text.
 */
module ArithmeticTool {
  import opened Wrappers
  import opened Text

  // ---------------------------------------------------------------------------
  // Expression trees

  /** The operator classes of the `ast` module that a `BinOp` node can carry. */
  datatype BinaryOperator =
    | Add | Sub | Mult | MatMult | Div | Mod | Pow
    | LShift | RShift | BitOr | BitXor | BitAnd | FloorDiv

  /** The operator classes of the `ast` module that a `UnaryOp` node can carry. */
  datatype UnaryOperator = Invert | Not | UAdd | USub

  /** `type(op).__name__` for a binary operator. */
  function BinaryOperatorName(op: BinaryOperator): string
  {
    match op
    case Add => "Add"
    case Sub => "Sub"
    case Mult => "Mult"
    case MatMult => "MatMult"
    case Div => "Div"
    case Mod => "Mod"
    case Pow => "Pow"
    case LShift => "LShift"
    case RShift => "RShift"
    case BitOr => "BitOr"
    case BitXor => "BitXor"
    case BitAnd => "BitAnd"
    case FloorDiv => "FloorDiv"
  }

  /** `type(op).__name__` for a unary operator. */
  function UnaryOperatorName(op: UnaryOperator): string
  {
    match op
    case Invert => "Invert"
    case Not => "Not"
    case UAdd => "UAdd"
    case USub => "USub"
  }

  /**
   * A parsed expression. `Constant` is `ast.Constant` with a numeric value,
   * `Num` the legacy `ast.Num`, and `OtherNode` every other node class
   * (`Name`, `Call`, `Compare`, ...), known only by its class name.
   */
  datatype Expr =
    | Constant(value: real)
    | Num(n: real)
    | BinOp(op: BinaryOperator, left: Expr, right: Expr)
    | UnaryOp(unaryOp: UnaryOperator, operand: Expr)
    | OtherNode(typeName: string)

  // ---------------------------------------------------------------------------
  // The `operators` table

  /** Python's `**` on two numbers; its exact semantics are not modelled. */
  type Power = (real, real) -> real

  /** The functions of Python's `operator` module that the table refers to. */
  datatype BinaryFunction = OperatorAdd | OperatorSub | OperatorMul | OperatorTrueDiv | OperatorPow
  datatype UnaryFunction = OperatorNeg | OperatorPos

  /** The binary-operator entries of the `operators` class table. */
  const BinaryOperators: map<BinaryOperator, BinaryFunction> :=
    map[Add := OperatorAdd, Sub := OperatorSub, Mult := OperatorMul, Div := OperatorTrueDiv, Pow := OperatorPow]

  /** The unary-operator entries of the `operators` class table. */
  const UnaryOperators: map<UnaryOperator, UnaryFunction> :=
    map[USub := OperatorNeg, UAdd := OperatorPos]

  /** Calls a binary function of the table; `operator.truediv` raises on a zero divisor. */
  function ApplyBinary(f: BinaryFunction, x: real, y: real, power: Power): real
    requires f == OperatorTrueDiv ==> y != 0.0
  {
    match f
    case OperatorAdd => x + y
    case OperatorSub => x - y
    case OperatorMul => x * y
    case OperatorTrueDiv => x / y
    case OperatorPow => power(x, y)
  }

  function ApplyUnary(f: UnaryFunction, x: real): real
  {
    match f
    case OperatorNeg => -x
    case OperatorPos => x
  }

  // ---------------------------------------------------------------------------
  // evaluate_ast_node

  /** The messages of the `ValueError`s that `evaluate_ast_node` raises. */
  ghost predicate IsEvaluationError(msg: string)
  {
    msg == "Division by zero"
    || (exists op :: op !in BinaryOperators && msg == "Unsupported operation: " + BinaryOperatorName(op))
    || (exists op :: op !in UnaryOperators && msg == "Unsupported unary operation: " + UnaryOperatorName(op))
    || HasPrefix(msg, "Unsupported node type: ")
  }

  /**
   * `evaluate_ast_node`: the value of a tree, or the message of the
   * `ValueError` it raises. Children are evaluated left to right before
   * the operator is looked up, so the first failing child decides the error.
   */
  function Evaluate(node: Expr, power: Power): (r: Result<real, string>)
    ensures r.Err? ==> IsEvaluationError(r.error)
  {
    match node
    case Constant(v) => Ok(v)
    case Num(n) => Ok(n)
    case BinOp(op, l, rt) =>
      var left := Evaluate(l, power);
      if left.Err? then left
      else
        var right := Evaluate(rt, power);
        if right.Err? then right
        else if op !in BinaryOperators then Err("Unsupported operation: " + BinaryOperatorName(op))
        else if op == Div && right.value == 0.0 then Err("Division by zero")
        else Ok(ApplyBinary(BinaryOperators[op], left.value, right.value, power))
    case UnaryOp(op, e) =>
      var operand := Evaluate(e, power);
      if operand.Err? then operand
      else if op !in UnaryOperators then Err("Unsupported unary operation: " + UnaryOperatorName(op))
      else Ok(ApplyUnary(UnaryOperators[op], operand.value))
    case OtherNode(name) => Err("Unsupported node type: " + name)
  }

  /**
   * An independent reading of the arithmetic the evaluator implements:
   * the value of a tree in ordinary arithmetic, with each operator given
   * its meaning directly rather than through the table, and no value for
   * a division by zero or for anything outside + - * / ** and unary - +.
   */
  ghost function Meaning(e: Expr, power: Power): Option<real>
  {
    match e
    case Constant(v) => Some(v)
    case Num(n) => Some(n)
    case BinOp(op, l, r) =>
      var x, y := Meaning(l, power), Meaning(r, power);
      if x.Some? && y.Some? then BinaryMeaning(op, x.value, y.value, power) else None
    case UnaryOp(op, x) =>
      var v := Meaning(x, power);
      if v.Some? then UnaryMeaning(op, v.value) else None
    case OtherNode(_) => None
  }

  ghost function BinaryMeaning(op: BinaryOperator, x: real, y: real, power: Power): Option<real>
  {
    match op
    case Add => Some(x + y)
    case Sub => Some(x - y)
    case Mult => Some(x * y)
    case Div => if y == 0.0 then None else Some(x / y)
    case Pow => Some(power(x, y))
    case _ => None
  }

  ghost function UnaryMeaning(op: UnaryOperator, v: real): Option<real>
  {
    match op
    case USub => Some(-v)
    case UAdd => Some(v)
    case _ => None
  }

  /** One binary step of the evaluator against its arithmetic meaning. */
  lemma BinaryStepAgrees(op: BinaryOperator, x: real, y: real, power: Power)
    ensures BinaryMeaning(op, x, y, power).Some? <==> op in BinaryOperators && !(op == Div && y == 0.0)
    ensures BinaryMeaning(op, x, y, power).Some? ==>
      BinaryMeaning(op, x, y, power).value == ApplyBinary(BinaryOperators[op], x, y, power)
  {
  }

  /** The evaluator yields a value exactly when the arithmetic meaning exists, and then that value. */
  lemma {:induction false} EvaluateAgreesWithMeaning(e: Expr, power: Power)
    ensures Evaluate(e, power).Ok? <==> Meaning(e, power).Some?
    ensures Evaluate(e, power).Ok? ==> Evaluate(e, power).value == Meaning(e, power).value
  {
    match e
    case Constant(_) =>
    case Num(_) =>
    case BinOp(op, l, r) =>
      EvaluateAgreesWithMeaning(l, power);
      EvaluateAgreesWithMeaning(r, power);
      if Evaluate(l, power).Ok? && Evaluate(r, power).Ok? {
        BinaryStepAgrees(op, Evaluate(l, power).value, Evaluate(r, power).value, power);
      }
    case UnaryOp(_, x) =>
      EvaluateAgreesWithMeaning(x, power);
    case OtherNode(_) =>
  }

  /** A constant node evaluates to its own value. */
  lemma ConstantEvaluatesToItself(v: real, power: Power)
    ensures Evaluate(Constant(v), power) == Ok(v)
    ensures Evaluate(Num(v), power) == Ok(v)
  {
  }

  /**
   * A binary node with two successful children applies the operator the
   * table maps it to: Add to +, Sub to -, Mult to *, Div to /, Pow to `**`.
   */
  lemma BinaryNodeSemantics(op: BinaryOperator, l: Expr, r: Expr, x: real, y: real, power: Power)
    requires Evaluate(l, power) == Ok(x) && Evaluate(r, power) == Ok(y)
    ensures op == Add ==> Evaluate(BinOp(op, l, r), power) == Ok(x + y)
    ensures op == Sub ==> Evaluate(BinOp(op, l, r), power) == Ok(x - y)
    ensures op == Mult ==> Evaluate(BinOp(op, l, r), power) == Ok(x * y)
    ensures op == Div && y != 0.0 ==> Evaluate(BinOp(op, l, r), power) == Ok(x / y)
    ensures op == Pow ==> Evaluate(BinOp(op, l, r), power) == Ok(power(x, y))
  {
    if op in BinaryOperators && !(op == Div && y == 0.0) {
      assert Evaluate(BinOp(op, l, r), power) == Ok(ApplyBinary(BinaryOperators[op], x, y, power));
    }
  }

  /** A division whose divisor evaluates to zero never yields a value; when the dividend succeeds the error is "Division by zero". */
  lemma DivisionByZeroFails(l: Expr, r: Expr, power: Power)
    requires Evaluate(r, power) == Ok(0.0)
    ensures Evaluate(BinOp(Div, l, r), power).Err?
    ensures Evaluate(l, power).Ok? ==> Evaluate(BinOp(Div, l, r), power) == Err("Division by zero")
  {
  }

  /** Unary minus negates and unary plus is the identity. */
  lemma UnaryNodeSemantics(e: Expr, power: Power)
    requires Evaluate(e, power).Ok?
    ensures Evaluate(UnaryOp(USub, e), power) == Ok(-Evaluate(e, power).value)
    ensures Evaluate(UnaryOp(UAdd, e), power) == Evaluate(e, power)
  {
  }

  /**
   * Operators missing from the table and node classes the evaluator does
   * not know always raise, with the class name in the message.
   */
  lemma UnsupportedConstructsFail(op: BinaryOperator, uop: UnaryOperator, l: Expr, r: Expr, name: string, power: Power)
    requires op !in BinaryOperators && uop !in UnaryOperators
    requires Evaluate(l, power).Ok? && Evaluate(r, power).Ok?
    ensures Evaluate(BinOp(op, l, r), power) == Err("Unsupported operation: " + BinaryOperatorName(op))
    ensures Evaluate(UnaryOp(uop, l), power) == Err("Unsupported unary operation: " + UnaryOperatorName(uop))
    ensures Evaluate(OtherNode(name), power) == Err("Unsupported node type: " + name)
  {
  }

  /** The operators the table holds: exactly + - * / ** and unary - +. */
  lemma TableContents()
    ensures forall op :: op in BinaryOperators <==> op in {Add, Sub, Mult, Div, Pow}
    ensures forall op :: op in UnaryOperators <==> op in {USub, UAdd}
  {
  }

  /** Children are evaluated left to right: a failing left child decides the error, then a failing right one. */
  lemma EvaluationOrder(op: BinaryOperator, l: Expr, r: Expr, power: Power)
    ensures Evaluate(l, power).Err? ==> Evaluate(BinOp(op, l, r), power) == Evaluate(l, power)
    ensures Evaluate(l, power).Ok? && Evaluate(r, power).Err? ==>
      Evaluate(BinOp(op, l, r), power) == Evaluate(r, power)
  {
  }

  /** `s` is `e` or a subtree that evaluating `e` evaluates. */
  predicate Within(s: Expr, e: Expr)
  {
    s == e
    || (e.BinOp? && (Within(s, e.left) || Within(s, e.right)))
    || (e.UnaryOp? && Within(s, e.operand))
  }

  /** Errors propagate: when any subtree fails, the whole expression fails. */
  lemma {:induction false} FailurePropagates(s: Expr, e: Expr, power: Power)
    requires Within(s, e) && Evaluate(s, power).Err?
    ensures Evaluate(e, power).Err?
  {
    if s != e {
      match e
      case BinOp(_, l, r) =>
        if Within(s, l) {
          FailurePropagates(s, l, power);
        } else {
          FailurePropagates(s, r, power);
        }
      case UnaryOp(_, x) =>
        FailurePropagates(s, x, power);
    }
  }

  /** Only table operators and numeric nodes occur in `e`. */
  predicate Supported(e: Expr)
  {
    match e
    case Constant(_) => true
    case Num(_) => true
    case BinOp(op, l, r) => op in BinaryOperators && Supported(l) && Supported(r)
    case UnaryOp(op, x) => op in UnaryOperators && Supported(x)
    case OtherNode(_) => false
  }

  /** A tree that uses anything outside the table anywhere never yields a value. */
  lemma {:induction false} UnsupportedAnywhereFails(e: Expr, power: Power)
    requires !Supported(e)
    ensures Evaluate(e, power).Err?
  {
    match e
    case BinOp(op, l, r) =>
      if !Supported(l) {
        UnsupportedAnywhereFails(l, power);
      } else if !Supported(r) {
        UnsupportedAnywhereFails(r, power);
      }
    case UnaryOp(op, x) =>
      if !Supported(x) {
        UnsupportedAnywhereFails(x, power);
      }
    case OtherNode(_) =>
  }

  /** In a tree built only from table operators the one error left is "Division by zero". */
  lemma {:induction false} SupportedFailsOnlyByDivisionByZero(e: Expr, power: Power)
    requires Supported(e) && Evaluate(e, power).Err?
    ensures Evaluate(e, power).error == "Division by zero"
  {
    match e
    case BinOp(op, l, r) =>
      if Evaluate(l, power).Err? {
        SupportedFailsOnlyByDivisionByZero(l, power);
      } else if Evaluate(r, power).Err? {
        SupportedFailsOnlyByDivisionByZero(r, power);
      }
    case UnaryOp(op, x) =>
      SupportedFailsOnlyByDivisionByZero(x, power);
  }

  // ---------------------------------------------------------------------------
  // parse_mathematical_expression and evaluate_expression

  /** What Python's `ast.parse(expression, mode='eval')` produced: the body, or the message of the `SyntaxError` or `ValueError` it raised. */
  datatype ParseOutcome = Parsed(body: Expr) | Rejected(message: string)

  /** The host services the tool calls and the model does not define. */
  datatype Host = Host(parse: string -> ParseOutcome, power: Power, show: real -> string)

  const InvalidExpressionPrefix := "Invalid mathematical expression: "

  /** `parse_mathematical_expression`: parse, evaluate, and turn a caught error into a message. */
  function ParseMathematicalExpression(expression: string, host: Host): (r: Result<real, string>)
    ensures r.Err? ==> HasPrefix(r.error, InvalidExpressionPrefix)
  {
    match host.parse(expression)
    case Rejected(msg) => Err(InvalidExpressionPrefix + msg)
    case Parsed(body) =>
      match Evaluate(body, host.power)
      case Ok(v) => Ok(v)
      case Err(msg) => Err(InvalidExpressionPrefix + msg)
  }

  /** `evaluate_expression`: the message for an error, otherwise the result sentence. */
  function EvaluateExpression(expression: string, host: Host): string
  {
    var stripped := Strip(expression);
    match ParseMathematicalExpression(stripped, host)
    case Err(msg) => msg
    case Ok(v) => ExpressionSentence(stripped, host.show(v))
  }

  function ExpressionSentence(expression: string, v: string): string
  {
    "The result of '" + expression + "' is " + v
  }

  /**
   * The shape of the string the expression path returns: the parser's or
   * the evaluator's message after "Invalid mathematical expression: ", or
   * the result sentence quoting the stripped expression.
   */
  lemma EvaluateExpressionOutcomes(expression: string, host: Host)
    ensures var stripped := Strip(expression);
      var out := EvaluateExpression(expression, host);
      match host.parse(stripped)
      case Rejected(msg) => out == InvalidExpressionPrefix + msg
      case Parsed(body) =>
        match Evaluate(body, host.power)
        case Ok(v) => out == "The result of '" + stripped + "' is " + host.show(v)
        case Err(msg) => out == InvalidExpressionPrefix + msg && IsEvaluationError(msg)
  {
  }

  /** Surrounding whitespace never changes the answer: the expression is stripped first. */
  lemma EvaluateExpressionIgnoresPadding(expression: string, host: Host)
    ensures EvaluateExpression(Strip(expression), host) == EvaluateExpression(expression, host)
  {
    StripIdempotent(expression);
  }

  /** Every answer of the expression path is an error message or a result sentence. */
  lemma EvaluateExpressionPrefix(expression: string, host: Host)
    ensures var out := EvaluateExpression(expression, host);
      HasPrefix(out, InvalidExpressionPrefix) || HasPrefix(out, "The result of '")
  {
    var stripped := Strip(expression);
    var r := ParseMathematicalExpression(stripped, host);
    if r.Ok? {
      assert EvaluateExpression(expression, host) == ExpressionSentence(stripped, host.show(r.value));
      PrefixOfConcat("The result of '", stripped + "' is " + host.show(r.value));
    } else {
      assert EvaluateExpression(expression, host) == r.error;
    }
  }

  // ---------------------------------------------------------------------------
  // calculate_basic_operation

  datatype BasicOperation = AddOperation | SubtractOperation | MultiplyOperation
                          | DivideOperation | PowerOperation | ModOperation

  /** The `operations` dictionary of `calculate_basic_operation`, in insertion order. */
  const Operations: seq<(string, BasicOperation)> := [
    ("add", AddOperation), ("subtract", SubtractOperation), ("multiply", MultiplyOperation),
    ("divide", DivideOperation), ("power", PowerOperation), ("mod", ModOperation)
  ]

  /** `operations.keys()`, in order. */
  function OperationNames(table: seq<(string, BasicOperation)>): (names: seq<string>)
    ensures |names| == |table|
    ensures forall i :: 0 <= i < |table| ==> names[i] == table[i].0
  {
    if |table| == 0 then [] else [table[0].0] + OperationNames(table[1..])
  }

  /** Dictionary lookup in an insertion-ordered table. */
  function Lookup(table: seq<(string, BasicOperation)>, key: string): (r: Option<BasicOperation>)
    ensures r.Some? <==> key in OperationNames(table)
    ensures r.Some? ==> (key, r.value) in table
  {
    if |table| == 0 then None
    else if table[0].0 == key then Some(table[0].1)
    else Lookup(table[1..], key)
  }

  /** `operations.get(operation.lower())`. */
  function LookupOperation(operation: string): Option<BasicOperation>
  {
    Lookup(Operations, ToLower(operation))
  }

  /** Python's `x % y` on numbers: the remainder takes the sign of the divisor. */
  function FloorMod(x: real, y: real): real
    requires y != 0.0
  {
    x - y * ((x / y).Floor as real)
  }

  /** The remainder of `x % y` lies between zero and the divisor, on the divisor's side. */
  lemma FloorModBounds(x: real, y: real)
    requires y != 0.0
    ensures 0.0 < y ==> 0.0 <= FloorMod(x, y) < y
    ensures y < 0.0 ==> y < FloorMod(x, y) <= 0.0
  {
    var q := x / y;
    var k := q.Floor as real;
    assert k <= q < k + 1.0;
    assert q * y == x;
    var f := q - k;
    assert 0.0 <= f < 1.0;
    assert FloorMod(x, y) == f * y;
    if 0.0 < y {
      assert y - f * y == (1.0 - f) * y;
    } else {
      assert f * y - y == (f - 1.0) * y;
    }
  }

  /** The lambda the table holds for `op`, applied: a number, or the string it returns instead. */
  function ApplyOperation(op: BasicOperation, x: real, y: real, power: Power): Result<real, string>
  {
    match op
    case AddOperation => Ok(x + y)
    case SubtractOperation => Ok(x - y)
    case MultiplyOperation => Ok(x * y)
    case DivideOperation => if y != 0.0 then Ok(x / y) else Err("Error: Division by zero")
    case PowerOperation => Ok(power(x, y))
    case ModOperation => if y != 0.0 then Ok(FloorMod(x, y)) else Err("Error: Modulo by zero")
  }

  /** `', '.join(table.keys())`. */
  function ListNames(table: seq<(string, BasicOperation)>): string
  {
    Join(OperationNames(table), ", ")
  }

  function UnknownOperationMessage(operation: string): string
  {
    "Unknown operation '" + operation + "'. Available operations: " + ListNames(Operations)
  }

  /** `calculate_basic_operation`. */
  function CalculateBasicOperation(a: real, b: real, operation: string, host: Host): string
  {
    BasicAnswer(LookupOperation(operation), a, b, operation, host)
  }

  /** The answer of `calculate_basic_operation` once the lookup has found `opFunc` or nothing. */
  function BasicAnswer(opFunc: Option<BasicOperation>, a: real, b: real, operation: string, host: Host): string
  {
    match opFunc
    case None => UnknownOperationMessage(operation)
    case Some(op) =>
      match ApplyOperation(op, a, b, host.power)
      case Err(msg) => msg
      case Ok(v) => ResultSentence(host.show(a), operation, host.show(b), host.show(v))
  }

  function ResultSentence(a: string, operation: string, b: string, v: string): string
  {
    "The result of " + a + " " + operation + " " + b + " is " + v
  }

  /** The lookup ignores case: an operation name and its lower-cased form find the same entry. */
  lemma LookupIgnoresCase(operation: string)
    ensures LookupOperation(operation) == LookupOperation(ToLower(operation))
  {
    ToLowerIdempotent(operation);
  }

  /** The lookup succeeds exactly for the six names, in any case. */
  lemma LookupSucceedsForKnownNames(operation: string)
    ensures LookupOperation(operation).Some? <==>
      ToLower(operation) in ["add", "subtract", "multiply", "divide", "power", "mod"]
  {
    assert OperationNames(Operations) == ["add", "subtract", "multiply", "divide", "power", "mod"];
  }

  /** The keys of the table, in insertion order. */
  lemma OperationNamesInOrder()
    ensures OperationNames(Operations) == ["add", "subtract", "multiply", "divide", "power", "mod"]
  {
  }

  /**
   * `', '.join(operations.keys())`: the six names in table order, one
   * ", " between neighbours.
   */
  lemma AvailableOperationsText()
    ensures ListNames(Operations)
      == "add" + ", " + "subtract" + ", " + "multiply" + ", " + "divide" + ", " + "power" + ", " + "mod"
  {
    OperationNamesInOrder();
    JoinSix("add", "subtract", "multiply", "divide", "power", "mod", ", ");
  }

  /**
   * An unknown name is answered with the name as given and the list of
   * table names, which `AvailableOperationsText` spells out.
   */
  lemma UnknownOperationListsNames(a: real, b: real, operation: string, host: Host)
    requires LookupOperation(operation).None?
    ensures CalculateBasicOperation(a, b, operation, host) ==
      "Unknown operation '" + operation + "'. Available operations: " + ListNames(Operations)
  {
  }

  /** Dividing or taking the remainder by zero answers with exactly the tool's error string. */
  lemma BasicZeroDivisor(a: real, operation: string, host: Host)
    ensures LookupOperation(operation) == Some(DivideOperation) ==>
      CalculateBasicOperation(a, 0.0, operation, host) == "Error: Division by zero"
    ensures LookupOperation(operation) == Some(ModOperation) ==>
      CalculateBasicOperation(a, 0.0, operation, host) == "Error: Modulo by zero"
  {
    ZeroDivisorAnswer(LookupOperation(operation), a, operation, host);
  }

  lemma ZeroDivisorAnswer(found: Option<BasicOperation>, a: real, operation: string, host: Host)
    ensures found == Some(DivideOperation) ==> BasicAnswer(found, a, 0.0, operation, host) == "Error: Division by zero"
    ensures found == Some(ModOperation) ==> BasicAnswer(found, a, 0.0, operation, host) == "Error: Modulo by zero"
  {
  }

  /** The lower-cased names "divide" and "mod" select division and remainder. */
  lemma ZeroDivisorByName(a: real, operation: string, host: Host)
    ensures ToLower(operation) == "divide" ==> CalculateBasicOperation(a, 0.0, operation, host) == "Error: Division by zero"
    ensures ToLower(operation) == "mod" ==> CalculateBasicOperation(a, 0.0, operation, host) == "Error: Modulo by zero"
  {
    if ToLower(operation) == "divide" {
      assert Lookup(Operations, "divide") == Some(DivideOperation);
      BasicZeroDivisor(a, operation, host);
    } else if ToLower(operation) == "mod" {
      assert Lookup(Operations, "mod") == Some(ModOperation);
      BasicZeroDivisor(a, operation, host);
    }
  }

  /**
   * A successful basic operation quotes the operands and the operation name
   * as the caller wrote it, then the value of the named arithmetic.
   */
  lemma BasicResultSentence(op: BasicOperation, v: real, a: real, b: real, operation: string, host: Host)
    requires LookupOperation(operation) == Some(op)
    requires ApplyOperation(op, a, b, host.power) == Ok(v)
    ensures CalculateBasicOperation(a, b, operation, host) ==
      "The result of " + host.show(a) + " " + operation + " " + host.show(b) + " is " + host.show(v)
  {
  }

  /** The evaluator's operator node for the arithmetic a basic operation names. */
  function SameOperator(op: BasicOperation): BinaryOperator
  {
    match op
    case AddOperation => Add
    case SubtractOperation => Sub
    case MultiplyOperation => Mult
    case DivideOperation => Div
    case PowerOperation => Pow
    case ModOperation => Mod
  }

  /**
   * The basic path and the expression evaluator agree on two numbers for
   * the operations they share; division by zero is an error in both, and
   * `mod`, which the basic path supports, the evaluator rejects.
   */
  lemma BasicAgreesWithEvaluator(op: BasicOperation, a: real, b: real, power: Power)
    ensures op != ModOperation && !(op == DivideOperation && b == 0.0) ==>
      ApplyOperation(op, a, b, power) == Evaluate(BinOp(SameOperator(op), Constant(a), Constant(b)), power)
    ensures op == DivideOperation && b == 0.0 ==>
      ApplyOperation(op, a, b, power).Err? && Evaluate(BinOp(Div, Constant(a), Constant(b)), power).Err?
    ensures op == ModOperation && b != 0.0 ==>
      ApplyOperation(op, a, b, power).Ok? && Evaluate(BinOp(Mod, Constant(a), Constant(b)), power).Err?
  {
    BinaryNodeSemantics(SameOperator(op), Constant(a), Constant(b), a, b, power);
    assert Mod !in BinaryOperators;
  }

  // ---------------------------------------------------------------------------
  // _run

  /** The keyword arguments `_run` may receive; `None` is an absent key or an explicit None. */
  datatype ArithmeticArgs = ArithmeticArgs(a: Option<real>, b: Option<real>, operation: Option<string>, expression: Option<string>)

  /** Python truthiness of an optional string. */
  predicate Truthy(s: Option<string>)
  {
    s.Some? && s.value != ""
  }

  const HelpMessage := "Please provide either " + "(a, b, operation) for individual operations or (expression) for complex calculations"

  predicate RequestsBasic(args: ArithmeticArgs)
  {
    args.a.Some? && args.b.Some? && Truthy(args.operation)
  }

  predicate RequestsExpression(args: ArithmeticArgs)
  {
    Truthy(args.expression)
  }

  /** `_run`: the basic path first, then the expression path, then the help message. */
  function Run(args: ArithmeticArgs, host: Host): string
  {
    if RequestsBasic(args) then CalculateBasicOperation(args.a.value, args.b.value, args.operation.value, host)
    else if RequestsExpression(args) then EvaluateExpression(args.expression.value, host)
    else HelpMessage
  }

  /**
   * `_run` takes the basic path whenever a, b and a non-empty operation are
   * given (a zero operand counts as given), even beside an expression;
   * otherwise the expression path for a non-empty expression.
   */
  lemma RunDispatch(args: ArithmeticArgs, host: Host)
    ensures RequestsBasic(args) ==>
      Run(args, host) == CalculateBasicOperation(args.a.value, args.b.value, args.operation.value, host)
    ensures !RequestsBasic(args) && RequestsExpression(args) ==>
      Run(args, host) == EvaluateExpression(args.expression.value, host)
    ensures RequestsBasic(ArithmeticArgs(Some(0.0), Some(0.0), Some("add"), args.expression))
  {
  }

  /** Every answer of the basic path begins "Unknown operation", "Error: " or "The result of ". */
  lemma BasicAnswerPrefix(opFunc: Option<BasicOperation>, a: real, b: real, operation: string, host: Host)
    ensures var out := BasicAnswer(opFunc, a, b, operation, host);
      HasPrefix(out, "Unknown operation '") || HasPrefix(out, "Error: ") || HasPrefix(out, "The result of ")
  {
    if opFunc.None? {
      PrefixOfConcat("Unknown operation '", operation + "'. Available operations: " + ListNames(Operations));
    } else {
      var r := ApplyOperation(opFunc.value, a, b, host.power);
      if r.Ok? {
        PrefixOfConcat("The result of ", host.show(a) + " " + operation + " " + host.show(b) + " is " + host.show(r.value));
      } else if opFunc.value == DivideOperation {
        PrefixOfConcat("Error: ", "Division by zero");
      } else {
        PrefixOfConcat("Error: ", "Modulo by zero");
      }
    }
  }

  /** No answer of either path can be mistaken for the help message. */
  lemma NotHelpMessage(out: string)
    requires HasPrefix(out, "Unknown operation '") || HasPrefix(out, "Error: ") || HasPrefix(out, "The result of ")
      || HasPrefix(out, InvalidExpressionPrefix)
    ensures out != HelpMessage
  {
    assert HelpMessage[0] == 'P';
    if HasPrefix(out, "Unknown operation '") {
      assert out[0] == "Unknown operation '"[0] == 'U';
    } else if HasPrefix(out, "Error: ") {
      assert out[0] == "Error: "[0] == 'E';
    } else if HasPrefix(out, "The result of ") {
      assert out[0] == "The result of "[0] == 'T';
    } else {
      assert out[0] == InvalidExpressionPrefix[0] == 'I';
    }
  }

  /** The help message is the answer exactly when neither path is requested. */
  lemma HelpExactlyWhenNothingRequested(args: ArithmeticArgs, host: Host)
    ensures Run(args, host) == HelpMessage <==> !RequestsBasic(args) && !RequestsExpression(args)
  {
    if RequestsBasic(args) {
      BasicAnswerPrefix(LookupOperation(args.operation.value), args.a.value, args.b.value, args.operation.value, host);
      NotHelpMessage(Run(args, host));
    } else if RequestsExpression(args) {
      EvaluateExpressionPrefix(args.expression.value, host);
      if HasPrefix(Run(args, host), "The result of '") {
        PrefixOfPrefix(Run(args, host), "The result of ", "'");
      }
      NotHelpMessage(Run(args, host));
    }
  }
}
