/** Static expressions over request inputs, evaluated when a workflow is expanded. */
module Expressions {
  import opened Wrappers

  datatype PyVal = PyInt(i: int) | PyBool(b: bool) | PyFloat(r: real) | PyStr(s: string)

  datatype Error =
    | MissingInput(name: string)
    | OperatorError(op: string)
    | TripNotInt(region: string)
    | TripNegative(region: string)
    | OutputsMismatch(op: string)

  datatype Expr =
    | Const(value: PyVal)
    | InputRef(name: string)
    | BinOp(op: string, lhs: Expr, rhs: Expr)
    | UnaryOp(op: string, operand: Expr)

  /** Python's operators on values; every result below holds whatever they compute. */
  datatype Operators = Operators(
    bin: (string, PyVal, PyVal) -> Option<PyVal>,
    un: (string, PyVal) -> Option<PyVal>)

  function Eval(py: Operators, e: Expr, env: map<string, PyVal>): Result<PyVal, Error> {
    match e
    case Const(v) => Ok(v)
    case InputRef(name) => if name in env then Ok(env[name]) else Err(MissingInput(name))
    case BinOp(op, lhs, rhs) =>
      var a :- Eval(py, lhs, env);
      var b :- Eval(py, rhs, env);
      (match py.bin(op, a, b) case Some(v) => Ok(v) case None => Err(OperatorError(op)))
    case UnaryOp(op, operand) =>
      var a :- Eval(py, operand, env);
      (match py.un(op, a) case Some(v) => Ok(v) case None => Err(OperatorError(op)))
  }

  function FreeInputs(e: Expr): set<string> {
    match e
    case Const(_) => {}
    case InputRef(name) => {name}
    case BinOp(_, lhs, rhs) => FreeInputs(lhs) + FreeInputs(rhs)
    case UnaryOp(_, operand) => FreeInputs(operand)
  }

  /** Python's `bool(v)`. */
  predicate Truthy(v: PyVal) {
    match v
    case PyInt(i) => i != 0
    case PyBool(b) => b
    case PyFloat(r) => r != 0.0
    case PyStr(s) => s != ""
  }

  /** An expression depends on the inputs it names and on nothing else. */
  lemma {:induction false} EvalDependsOnFreeInputs(py: Operators, e: Expr, env: map<string, PyVal>,
                                                   env': map<string, PyVal>)
    requires forall x | x in FreeInputs(e) :: (x in env <==> x in env') && (x in env ==> env[x] == env'[x])
    ensures Eval(py, e, env) == Eval(py, e, env')
  {
    match e
    case Const(_) =>
    case InputRef(_) =>
    case BinOp(_, lhs, rhs) =>
      EvalDependsOnFreeInputs(py, lhs, env, env');
      EvalDependsOnFreeInputs(py, rhs, env, env');
    case UnaryOp(_, operand) =>
      EvalDependsOnFreeInputs(py, operand, env, env');
  }
}
