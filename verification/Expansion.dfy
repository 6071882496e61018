/** The expander as state-passing functions: regions become a flat list of freshly named nodes. */
module Expansion {
  import opened Wrappers
  import opened Expressions
  import opened Workflows

  type Scope = map<IoName, NodeIO>

  /** What an expansion accumulates: region results, injected loop counters, emitted nodes, next fresh uid. */
  datatype State = State(subst: map<IoName, NodeIO>, injected: map<IoName, int>, emitted: seq<Node>, fresh_: nat)

  /** _resolve: innermost scope, then outer scopes, then region results, then identity. */
  function Resolve(io: NodeIO, scope: Scope, subst: map<IoName, NodeIO>): NodeIO {
    if io.name in scope then scope[io.name]
    else if io.name in subst then subst[io.name]
    else io
  }

  function ResolveAll(ios: map<string, NodeIO>, scope: Scope, subst: map<IoName, NodeIO>): map<string, NodeIO> {
    map k | k in ios :: Resolve(ios[k], scope, subst)
  }

  function ResolveInputs(ins: map<string, Option<NodeIO>>, scope: Scope, subst: map<IoName, NodeIO>)
    : map<string, Option<NodeIO>>
  {
    map k | k in ins :: match ins[k] case None => None case Some(io) => Some(Resolve(io, scope, subst))
  }

  /** _clone: a fresh name, rewired inputs, and the outputs the operator declares. */
  function Clone(src: Node, scope: Scope, st: State): Result<Node, Error> {
    if src.declared != src.outputs then Err(OutputsMismatch(src.op))
    else Ok(Node(Minted(src.op, st.fresh_), src.op, src.mode, ResolveInputs(src.inputs, scope, st.subst), src.declared,
                 src.declared))
  }

  function Emit(n: Node, st: State): State {
    st.(emitted := st.emitted + [n], fresh_ := st.fresh_ + 1)
  }

  /** The outputs of a body node now name the outputs of its clone. */
  function BindOutputs(src: Node, clone: Node, scope: Scope): Scope {
    scope + map k | k in src.outputs :: Output(src.name, k) := NodeIO(Output(clone.name, k), NODE)
  }

  function ExpandProgram(py: Operators, p: Program, inputs: map<string, PyVal>, env: map<string, PyVal>, scope: Scope,
                         st: State)
    : Result<(Scope, State), Error>
    decreases p, 0
  {
    match p
    case Nil => Ok((scope, st))
    case Cons(NodeOp(n), rest) =>
      var clone :- Clone(n, scope, st);
      ExpandProgram(py, rest, inputs, env, BindOutputs(n, clone, scope), Emit(clone, st))
    case Cons(RegionOp(r), rest) =>
      var st' :- ExpandRegion(py, r, inputs, env, scope, st);
      ExpandProgram(py, rest, inputs, env, scope, st')
  }

  /** The trip count as the expander accepts it: an int that is not a bool and not negative. */
  function TripCount(py: Operators, id: string, e: Expr, env: map<string, PyVal>): Result<nat, Error> {
    var v :- Eval(py, e, env);
    match v
    case PyInt(i) => if i < 0 then Err(TripNegative(id)) else Ok(i)
    case _ => Err(TripNotInt(id))
  }

  function BindResults(r: Region, current: map<string, NodeIO>, st: State): State {
    st.(subst := st.subst + map k | k in current :: ResultOf(r.id, k) := current[k])
  }

  function ExpandRegion(py: Operators, r: Region, inputs: map<string, PyVal>, env: map<string, PyVal>, scope: Scope,
                        st: State)
    : Result<State, Error>
    decreases r, 0
  {
    match r
    case Loop(id, trip, carryInit, _, _) =>
      var count :- TripCount(py, id, trip, inputs + env);
      var (current, st') :- ExpandLoop(py, r, inputs, env, scope, ResolveAll(carryInit, scope, st.subst), 0, count, st);
      Ok(BindResults(r, current, st'))
    case Cond(_, predicate_, _, then_, else_) =>
      var v :- Eval(py, predicate_, inputs + env);
      if Truthy(v) then ExpandBranch(py, r, then_, inputs, env, scope, st)
      else match else_
        case None => Ok(st)
        case Some(b) => ExpandBranch(py, r, b, inputs, env, scope, st)
  }

  function ExpandBranch(py: Operators, r: Region, b: Branch, inputs: map<string, PyVal>, env: map<string, PyVal>,
                        scope: Scope, st: State)
    : Result<State, Error>
    decreases b, 0
  {
    var (scope', st') :- ExpandProgram(py, b.body, inputs, env, scope, st);
    Ok(BindResults(r, ResolveAll(b.results, scope', st'.subst), st'))
  }

  /** The scope at the top of iteration `i`: the renamed counter and the current carry. */
  function IterationScope(r: Region, i: nat, current: map<string, NodeIO>, scope: Scope): Scope {
    scope[InductionVar(r.id) := NodeIO(Step(r.id, i), INPUT)] + CarryScope(r, current)
  }

  function CarryScope(r: Region, current: map<string, NodeIO>): Scope {
    map k | k in current :: Carry(r.id, k) := current[k]
  }

  function Inject(r: Region, i: nat, st: State): State {
    st.(injected := st.injected[Step(r.id, i) := i])
  }

  /** Iterations `i` up to `count` of a loop. */
  function ExpandLoop(py: Operators, r: Region, inputs: map<string, PyVal>, env: map<string, PyVal>, scope: Scope,
                      current: map<string, NodeIO>, i: nat, count: nat, st: State)
    : Result<(map<string, NodeIO>, State), Error>
    requires r.Loop? && i <= count
    decreases r.body, 1, count - i
  {
    if i == count then Ok((current, st))
    else
      var (scope', st') :- ExpandProgram(py, r.body, inputs, env[r.id := PyInt(i)],
                                         IterationScope(r, i, current, scope), Inject(r, i, st));
      ExpandLoop(py, r, inputs, env, scope, ResolveAll(r.carryOut, scope', st'.subst), i + 1, count, st')
  }

  function ExpandRegions(py: Operators, regions: seq<Region>, inputs: map<string, PyVal>, st: State)
    : Result<State, Error>
  {
    if regions == [] then Ok(st)
    else
      var st' :- ExpandRegion(py, regions[0], inputs, map[], map[], st);
      ExpandRegions(py, regions[1..], inputs, st')
  }

  /** Pass 3: inputs that still name a region result are pointed at the value that replaced it. */
  function Patch(n: Node, subst: map<IoName, NodeIO>): Node {
    n.(inputs := ResolveInputs(n.inputs, map[], subst))
  }

  function PatchAll(nodes: seq<Node>, subst: map<IoName, NodeIO>): seq<Node> {
    seq(|nodes|, i requires 0 <= i < |nodes| => Patch(nodes[i], subst))
  }

  function OutputTarget(key: IoName, subst: map<IoName, NodeIO>): IoName {
    if key in subst then subst[key].name else key
  }

  /**
   * Pass 4: outputs keyed by the name of their producer; a later output with the same producer
   * replaces an earlier one.
   */
  function RemapOutputs(outputs: seq<(IoName, string)>, subst: map<IoName, NodeIO>): map<IoName, string> {
    if outputs == [] then map[]
    else
      var last := outputs[|outputs| - 1];
      RemapOutputs(outputs[..|outputs| - 1], subst)[OutputTarget(last.0, subst) := last.1]
  }

  datatype Expanded = Expanded(nodes: seq<Node>, outputs: map<IoName, string>, injected: map<IoName, int>,
                               subst: map<IoName, NodeIO>)

  /** expand_workflow_pure, up to the final check. */
  function Expand(py: Operators, w: Workflow, inputs: map<string, PyVal>, fresh_: nat): Result<Expanded, Error> {
    var st :- ExpandRegions(py, w.regions, inputs, State(map[], map[], w.nodes, fresh_));
    Ok(Expanded(PatchAll(st.emitted, st.subst), RemapOutputs(w.outputs, st.subst), st.injected, st.subst))
  }
}
