/** The meaning of a workflow before expansion, and of a flat graph after it. */
module Interpreter {
  import opened Wrappers
  import opened Expressions
  import opened Workflows
  import opened Expansion

  /** An interpretation of the operators: what an output is, given the arguments by name. */
  datatype Semantics<!V> = Semantics(
    apply: (string, string, string, map<string, V>) -> V,
    ofInt: int -> V, ofInput: PyVal -> V, null_: V, missing: V)

  type Store<V> = map<IoName, V>

  function Read<V>(sem: Semantics<V>, rho: Store<V>, x: IoName): V {
    if x in rho then rho[x] else sem.missing
  }

  function Arguments<V>(sem: Semantics<V>, ins: map<string, Option<NodeIO>>, rho: Store<V>): map<string, V> {
    map k | k in ins :: match ins[k] case None => sem.null_ case Some(io) => Read(sem, rho, io.name)
  }

  function RunNode<V>(sem: Semantics<V>, n: Node, rho: Store<V>): (rho': Store<V>)
    ensures rho'.Keys == rho.Keys + OutputNames(n)
  {
    var arguments := Arguments(sem, n.inputs, rho);
    rho + map k | k in n.outputs :: Output(n.name, k) := sem.apply(n.op, n.mode, k, arguments)
  }

  function ReadAll<V>(sem: Semantics<V>, ios: map<string, NodeIO>, rho: Store<V>): map<string, V> {
    map k | k in ios :: Read(sem, rho, ios[k].name)
  }

  // ---------------------------------------------------------------- structured programs

  /** Runs a body in a store; names it defines stay visible to what follows in the same body. */
  function RunProgram<V>(py: Operators, sem: Semantics<V>, p: Program, inputs: map<string, PyVal>, rho: Store<V>)
    : Result<Store<V>, Error>
    decreases p, 0
  {
    match p
    case Nil => Ok(rho)
    case Cons(NodeOp(n), rest) => RunProgram(py, sem, rest, inputs, RunNode(sem, n, rho))
    case Cons(RegionOp(r), rest) =>
      var results :- RunRegion(py, sem, r, inputs, rho);
      RunProgram(py, sem, rest, inputs, rho + Named(r, results))
  }

  function Named<V>(r: Region, results: map<string, V>): Store<V> {
    map k | k in results :: ResultOf(r.id, k) := results[k]
  }

  /** A region is a function from the store to its results; nothing else leaves its body. */
  function RunRegion<V>(py: Operators, sem: Semantics<V>, r: Region, inputs: map<string, PyVal>, rho: Store<V>)
    : Result<map<string, V>, Error>
    decreases r, 0
  {
    match r
    case Loop(id, trip, carryInit, _, _) =>
      var count :- TripCount(py, id, trip, inputs);
      RunLoop(py, sem, r, inputs, rho, ReadAll(sem, carryInit, rho), 0, count)
    case Cond(_, predicate_, _, then_, else_) =>
      var v :- Eval(py, predicate_, inputs);
      if Truthy(v) then RunBranch(py, sem, then_, inputs, rho)
      else match else_
        case None => Ok(map[])
        case Some(b) => RunBranch(py, sem, b, inputs, rho)
  }

  function RunBranch<V>(py: Operators, sem: Semantics<V>, b: Branch, inputs: map<string, PyVal>, rho: Store<V>)
    : Result<map<string, V>, Error>
    decreases b, 0
  {
    var rho' :- RunProgram(py, sem, b.body, inputs, rho);
    Ok(ReadAll(sem, b.results, rho'))
  }

  function IterationStore<V>(sem: Semantics<V>, r: Region, i: nat, current: map<string, V>, rho: Store<V>): Store<V> {
    rho[InductionVar(r.id) := sem.ofInt(i)] + map k | k in current :: Carry(r.id, k) := current[k]
  }

  function RunLoop<V>(py: Operators, sem: Semantics<V>, r: Region, inputs: map<string, PyVal>, rho: Store<V>,
                      current: map<string, V>, i: nat, count: nat): Result<map<string, V>, Error>
    requires r.Loop? && i <= count
    decreases r.body, 1, count - i
  {
    if i == count then Ok(current)
    else
      var rho' :- RunProgram(py, sem, r.body, inputs, IterationStore(sem, r, i, current, rho));
      RunLoop(py, sem, r, inputs, rho, ReadAll(sem, r.carryOut, rho'), i + 1, count)
  }

  // ---------------------------------------------------------------- flat graphs

  /** Every node's outputs are what its operator makes of its inputs. */
  ghost predicate Valuation<V>(sem: Semantics<V>, nodes: seq<Node>, val: Store<V>) {
    forall n, k | n in nodes && k in n.outputs ::
      Output(n.name, k) in val && val[Output(n.name, k)] == sem.apply(n.op, n.mode, k, Arguments(sem, n.inputs, val))
  }

  /** Evaluation in list order. */
  function RunNodes<V>(sem: Semantics<V>, nodes: seq<Node>, val: Store<V>): Store<V> {
    if nodes == [] then val else RunNodes(sem, nodes[1..], RunNode(sem, nodes[0], val))
  }

  ghost predicate NodeReadsIn(n: Node, have: set<IoName>) {
    forall k | k in n.inputs && n.inputs[k].Some? :: n.inputs[k].value.name in have
  }

  /** Each node reads only what comes before it and defines names not seen before. */
  ghost predicate Ordered(nodes: seq<Node>, have: set<IoName>)
  {
    nodes == [] ||
    (NodeReadsIn(nodes[0], have) && OutputNames(nodes[0]) !! have && Ordered(nodes[1..], have + OutputNames(nodes[0])))
  }

  function Produces(nodes: seq<Node>): set<IoName> {
    if nodes == [] then {} else OutputNames(nodes[0]) + Produces(nodes[1..])
  }

  // ---------------------------------------------------------------- what decides a region's shape

  /** The values that Python takes for false. */
  predicate IsFalse(v: PyVal) {
    v == PyInt(0) || v == PyBool(false) || v == PyFloat(0.0) || v == PyStr("")
  }

  /** The branch a conditional has for a value of its predicate. */
  function Chosen(r: Region, v: PyVal): Option<Branch>
    requires r.Cond?
  {
    if IsFalse(v) then r.else_ else Some(r.then_)
  }

  /**
   * A conditional expands and runs the then branch unless its predicate's value is one of the false
   * ones, and the else branch, if there is one, otherwise; without a branch to take, nothing happens.
   */
  lemma BranchTaken<V>(py: Operators, sem: Semantics<V>, r: Region, inputs: map<string, PyVal>,
                       env: map<string, PyVal>, scope: Scope, st: State, rho: Store<V>)
    requires r.Cond?
    ensures var v, expanded := Eval(py, r.predicate_, inputs + env), ExpandRegion(py, r, inputs, env, scope, st);
            expanded == match v
              case Err(e) => Err(e)
              case Ok(v) =>
                match Chosen(r, v)
                case None => Ok(st)
                case Some(b) => ExpandBranch(py, r, b, inputs, env, scope, st)
    ensures var v, run := Eval(py, r.predicate_, inputs), RunRegion(py, sem, r, inputs, rho);
            run == match v
              case Err(e) => Err(e)
              case Ok(v) =>
                match Chosen(r, v)
                case None => Ok(map[])
                case Some(b) => RunBranch(py, sem, b, inputs, rho)
  {
    hide Eval, ExpandBranch, RunBranch;
  }

  /** A trip count is accepted exactly when it is an int, not a bool, and not negative. */
  lemma TripsAccepted(py: Operators, id: string, trip: Expr, env: map<string, PyVal>, n: nat)
    ensures TripCount(py, id, trip, env) == Ok(n) <==> Eval(py, trip, env) == Ok(PyInt(n))
    ensures forall i | i < 0 && Eval(py, trip, env) == Ok(PyInt(i)) ::
              TripCount(py, id, trip, env) == Err(TripNegative(id))
    ensures forall v: PyVal | !v.PyInt? && Eval(py, trip, env) == Ok(v) ::
              TripCount(py, id, trip, env) == Err(TripNotInt(id))
  {
    hide Eval;
  }
}
