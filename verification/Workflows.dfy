/** Workflows: nodes, loop and conditional regions, and what it means for one to be well scoped. */
module Workflows {
  import opened Wrappers
  import opened Expressions

  /** Node names: authored ones, and the fresh ones the expander mints (uuids, here a counter). */
  datatype NodeName = Authored(op: string, uid: nat) | Minted(op: string, uid: nat)

  /** Names of values: request inputs, node outputs, and the placeholders a region introduces. */
  datatype IoName =
    | Request(input: string)
    | Output(node: NodeName, key: string)
    | Step(region: string, iteration: nat)
    | InductionVar(region: string)
    | Carry(region: string, key: string)
    | ResultOf(region: string, key: string)

  datatype Source = INPUT | NODE

  datatype NodeIO = NodeIO(name: IoName, source: Source)

  /**
   * `declared` are the outputs the operator has in this mode, `outputs` those the node was built
   * with; output `k` of a node is named `Output(name, k)`.
   */
  datatype Node = Node(
    name: NodeName, op: string, mode: string,
    inputs: map<string, Option<NodeIO>>, outputs: set<string>, declared: set<string>)

  datatype Op = NodeOp(node: Node) | RegionOp(region: Region)

  /** An ordered body of nodes and nested regions (class RegionProgram). */
  datatype Program = Nil | Cons(op: Op, rest: Program)

  datatype Branch = Branch(body: Program, results: map<string, NodeIO>)

  /** The results of a loop have its carry keys; those of a conditional are listed. */
  datatype Region =
    | Loop(id: string, trip: Expr, carryInit: map<string, NodeIO>, carryOut: map<string, NodeIO>, body: Program)
    | Cond(id: string, predicate_: Expr, results: set<string>, then_: Branch, else_: Option<Branch>)

  datatype Workflow = Workflow(nodes: seq<Node>, regions: seq<Region>, outputs: seq<(IoName, string)>)

  // ---------------------------------------------------------------- placeholders

  function ResultKeys(r: Region): set<string> {
    match r
    case Loop(_, _, carryInit, _, _) => carryInit.Keys
    case Cond(_, _, results, _, _) => results
  }

  function ResultNames(r: Region): set<IoName> {
    set k | k in ResultKeys(r) :: ResultOf(r.id, k)
  }

  function OutputNames(n: Node): set<IoName> {
    set k | k in n.outputs :: Output(n.name, k)
  }

  /** Names that stand for a value while the expanded graph runs. */
  predicate Real(x: IoName) {
    x.Request? || x.Output? || x.Step?
  }

  predicate SourceFits(io: NodeIO) {
    io.source.INPUT? <==> io.name.Request? || io.name.Step? || io.name.InductionVar?
  }

  // ---------------------------------------------------------------- region ids

  function IdsOf(p: Program): set<string> {
    match p
    case Nil => {}
    case Cons(NodeOp(_), rest) => IdsOf(rest)
    case Cons(RegionOp(r), rest) => IdsOfRegion(r) + IdsOf(rest)
  }

  function IdsOfRegion(r: Region): set<string> {
    match r
    case Loop(id, _, _, _, body) => {id} + IdsOf(body)
    case Cond(id, _, _, then_, else_) =>
      {id} + IdsOf(then_.body) + (match else_ case None => {} case Some(b) => IdsOf(b.body))
  }

  // ---------------------------------------------------------------- scoping

  predicate ReadsIn(io: NodeIO, defined: set<IoName>) {
    io.name in defined && SourceFits(io)
  }

  predicate MapReadsIn(ios: map<string, NodeIO>, defined: set<IoName>) {
    forall k | k in ios :: ReadsIn(ios[k], defined)
  }

  predicate NodeScoped(n: Node, defined: set<IoName>) {
    && n.name.op == n.op
    && forall k | k in n.inputs && n.inputs[k].Some? :: ReadsIn(n.inputs[k].value, defined)
  }

  /** Names defined once the program has run. */
  function Defined(p: Program, defined: set<IoName>): set<IoName> {
    match p
    case Nil => defined
    case Cons(NodeOp(n), rest) => Defined(rest, defined + OutputNames(n))
    case Cons(RegionOp(r), rest) => Defined(rest, defined + ResultNames(r))
  }

  /** Names defined at the top of a loop's body. */
  function LoopDefined(r: Region, defined: set<IoName>): set<IoName>
    requires r.Loop?
  {
    defined + {InductionVar(r.id)} + set k | k in r.carryInit :: Carry(r.id, k)
  }

  /**
   * Every name is read after it is defined and inside its scope, body nodes were built with the
   * outputs their operators declare, trip counts and predicates read no region id (`ids` are all of
   * them), and region ids do not repeat.
   */
  predicate Scoped(p: Program, defined: set<IoName>, ids: set<string>) {
    match p
    case Nil => true
    case Cons(NodeOp(n), rest) =>
      && n.declared == n.outputs && NodeScoped(n, defined)
      && Scoped(rest, defined + OutputNames(n), ids)
    case Cons(RegionOp(r), rest) =>
      && RegionScoped(r, defined, ids)
      && IdsOfRegion(r) !! IdsOf(rest)
      && Scoped(rest, defined + ResultNames(r), ids)
  }

  predicate BranchScoped(b: Branch, results: set<string>, defined: set<IoName>, ids: set<string>) {
    && b.results.Keys == results
    && Scoped(b.body, defined, ids)
    && MapReadsIn(b.results, Defined(b.body, defined))
  }

  predicate RegionScoped(r: Region, defined: set<IoName>, ids: set<string>) {
    match r
    case Loop(id, trip, carryInit, carryOut, body) =>
      && id in ids && FreeInputs(trip) !! ids
      && carryOut.Keys == carryInit.Keys
      && MapReadsIn(carryInit, defined)
      && id !in IdsOf(body)
      && Scoped(body, LoopDefined(r, defined), ids)
      && MapReadsIn(carryOut, Defined(body, LoopDefined(r, defined)))
    case Cond(id, predicate_, results, then_, else_) =>
      && id in ids && FreeInputs(predicate_) !! ids
      && id !in IdsOf(then_.body)
      && BranchScoped(then_, results, defined, ids)
      && match else_
         case None => results == {}
         case Some(b) => id !in IdsOf(b.body) && BranchScoped(b, results, defined, ids)
  }
}
