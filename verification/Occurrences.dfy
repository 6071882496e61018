/** How often each operator runs in a request, and why two expansions tell it for every step count. */
module Occurrences {
  import opened Wrappers
  import opened Expressions
  import opened Workflows
  import opened Expansion
  import opened Interpreter
  import opened Simulation
  import opened WholeWorkflow
  import Checks = ExpansionChecks
  import Errors = ExpansionErrors
  import Expander

  const STEPS := "num_inference_steps"

  /** The inputs of a request for `n` steps. */
  function At(inputs: map<string, PyVal>, n: nat): map<string, PyVal> {
    inputs[STEPS := PyInt(n)]
  }

  // ---------------------------------------------------------------- counting nodes

  datatype Signature = Signature(op: string, mode: string, inputs: set<string>)

  /** static_signature_for: only inputs that will have a value count. */
  function StaticSignature(n: Node, resolvable: set<IoName>): Signature {
    Signature(n.op, n.mode, set k | k in n.inputs && n.inputs[k].Some? && n.inputs[k].value.name in resolvable)
  }

  function Resolvable(g: Expanded, inputs: map<string, PyVal>): set<IoName> {
    RequestNames(inputs) + g.injected.Keys + Produces(g.nodes)
  }

  function Number(nodes: seq<Node>, resolvable: set<IoName>, s: Signature): nat {
    if nodes == [] then 0
    else Number(nodes[..|nodes| - 1], resolvable, s) +
         if StaticSignature(nodes[|nodes| - 1], resolvable) == s then 1 else 0
  }

  /** What cloning and patching a node leave alone. */
  function Shape(n: Node): Signature {
    Signature(n.op, n.mode, set k | k in n.inputs && n.inputs[k].Some?)
  }

  function One(n: Node, s: Signature): nat {
    if Shape(n) == s then 1 else 0
  }

  function Tally(nodes: seq<Node>, s: Signature): nat {
    if nodes == [] then 0 else Tally(nodes[..|nodes| - 1], s) + One(nodes[|nodes| - 1], s)
  }

  lemma {:induction false} NumberIsTally(nodes: seq<Node>, resolvable: set<IoName>, s: Signature)
    requires forall n | n in nodes :: NodeReadsIn(n, resolvable)
    ensures Number(nodes, resolvable, s) == Tally(nodes, s)
  {
    if nodes != [] {
      var front, last := nodes[..|nodes| - 1], nodes[|nodes| - 1];
      assert nodes == front + [last];
      NumberIsTally(front, resolvable, s);
      assert NodeReadsIn(last, resolvable);
      assert StaticSignature(last, resolvable).inputs == Shape(last).inputs;
    }
  }

  lemma {:induction false} PatchedTally(nodes: seq<Node>, subst: map<IoName, NodeIO>, s: Signature)
    ensures Tally(PatchAll(nodes, subst), s) == Tally(nodes, s)
  {
    if nodes != [] {
      var front, last := nodes[..|nodes| - 1], nodes[|nodes| - 1];
      PatchedTally(front, subst, s);
      assert PatchAll(nodes, subst)[..|nodes| - 1] == PatchAll(front, subst);
      assert Shape(Patch(last, subst)).inputs == Shape(last).inputs;
    }
  }

  // ---------------------------------------------------------------- counting on the structured program

  function Trips(py: Operators, id: string, trip: Expr, inputs: map<string, PyVal>): nat {
    match TripCount(py, id, trip, inputs) case Ok(n) => n case Err(_) => 0
  }

  /** Repeated addition. */
  function Times(n: nat, c: nat): nat {
    if n == 0 then 0 else c + Times(n - 1, c)
  }

  /** How many nodes of a signature a body expands into: a loop multiplies, a conditional chooses. */
  function CountProgram(py: Operators, p: Program, inputs: map<string, PyVal>, s: Signature): nat
    decreases p, 0
  {
    match p
    case Nil => 0
    case Cons(NodeOp(n), rest) => One(n, s) + CountProgram(py, rest, inputs, s)
    case Cons(RegionOp(r), rest) => CountRegion(py, r, inputs, s) + CountProgram(py, rest, inputs, s)
  }

  function CountRegion(py: Operators, r: Region, inputs: map<string, PyVal>, s: Signature): nat
    decreases r, 0
  {
    match r
    case Loop(id, trip, _, _, body) => Times(Trips(py, id, trip, inputs), CountProgram(py, body, inputs, s))
    case Cond(_, predicate_, _, then_, else_) =>
      var v := Eval(py, predicate_, inputs);
      if v.Err? then 0
      else if Truthy(v.value) then CountProgram(py, then_.body, inputs, s)
      else match else_ case None => 0 case Some(b) => CountProgram(py, b.body, inputs, s)
  }

  /** Every expression that is reached can be evaluated. */
  predicate ProgramExpands(py: Operators, p: Program, inputs: map<string, PyVal>)
    decreases p, 0
  {
    match p
    case Nil => true
    case Cons(NodeOp(_), rest) => ProgramExpands(py, rest, inputs)
    case Cons(RegionOp(r), rest) => RegionExpands(py, r, inputs) && ProgramExpands(py, rest, inputs)
  }

  predicate RegionExpands(py: Operators, r: Region, inputs: map<string, PyVal>)
    decreases r, 0
  {
    match r
    case Loop(id, trip, _, _, body) =>
      var count := TripCount(py, id, trip, inputs);
      count.Ok? && (count.value == 0 || ProgramExpands(py, body, inputs))
    case Cond(_, predicate_, _, then_, else_) =>
      var v := Eval(py, predicate_, inputs);
      v.Ok? && if Truthy(v.value) then ProgramExpands(py, then_.body, inputs) else else_.Some? ==>
        ProgramExpands(py, else_.value.body, inputs)
  }

  lemma CloneKeepsShape(n: Node, scope: Scope, st: State, s: Signature)
    requires Clone(n, scope, st).Ok?
    ensures Tally(Emit(Clone(n, scope, st).value, st).emitted, s) == Tally(st.emitted, s) + One(n, s)
  {
    var clone := Clone(n, scope, st).value;
    assert Shape(clone).inputs == Shape(n).inputs;
    var after := Emit(clone, st).emitted;
    assert after[..|after| - 1] == st.emitted;
  }

  lemma {:induction false} ProgramCounts(py: Operators, p: Program, inputs: map<string, PyVal>, env: map<string, PyVal>,
                                         scope: Scope,
                                         st: State, s: Signature, defined: set<IoName>, ids: set<string>)
    requires Scoped(p, defined, ids) && env.Keys <= ids
    ensures Adds(ExpandProgram(py, p, inputs, env, scope, st), ProgramExpands(py, p, inputs), st, s,
                 CountProgram(py, p, inputs, s))
    decreases p, 0
  {
    match p
    case Nil =>
    case Cons(NodeOp(n), rest) =>
      var clone := Clone(n, scope, st).value;
      CloneKeepsShape(n, scope, st, s);
      ProgramCounts(py, rest, inputs, env, BindOutputs(n, clone, scope), Emit(clone, st), s, defined + OutputNames(n),
                    ids);
    case Cons(RegionOp(r), rest) =>
      RegionCounts(py, r, inputs, env, scope, st, s, defined, ids);
      var st1 := ExpandRegion(py, r, inputs, env, scope, st);
      if st1.Ok? {
        ProgramCounts(py, rest, inputs, env, scope, st1.value, s, defined + ResultNames(r), ids);
      }
  }

  lemma {:induction false} RegionCounts(py: Operators, r: Region, inputs: map<string, PyVal>, env: map<string, PyVal>,
                                        scope: Scope,
                                        st: State, s: Signature, defined: set<IoName>, ids: set<string>)
    requires RegionScoped(r, defined, ids) && env.Keys <= ids
    ensures var expanded := ExpandRegion(py, r, inputs, env, scope, st);
            && (expanded.Ok? <==> RegionExpands(py, r, inputs))
            && (expanded.Ok? ==>
                Tally(expanded.value.emitted, s) == Tally(st.emitted, s) + CountRegion(py, r, inputs, s))
    decreases r, 0
  {
    hide ExpandLoop, ExpandProgram, ExpandRegion, Scoped, ResolveAll, ProgramExpands, CountProgram, Tally;
    match r
    case Loop(id, trip, carryInit, _, body) =>
      SameValue(py, trip, inputs, env, ids);
      var count := TripCount(py, id, trip, inputs);
      LoopExpansion(py, r, inputs, env, scope, st);
      if count.Ok? {
        LoopCounts(py, r, inputs, env, scope, ResolveAll(carryInit, scope, st.subst), 0, count.value, st, s, defined,
                   ids);
      }
    case Cond(_, predicate_, _, then_, else_) =>
      SameValue(py, predicate_, inputs, env, ids);
      var v := Eval(py, predicate_, inputs);
      CondExpansion(py, r, inputs, env, scope, st);
      if v.Ok? && Truthy(v.value) {
        ProgramCounts(py, then_.body, inputs, env, scope, st, s, defined, ids);
      } else if v.Ok? && else_.Some? {
        ProgramCounts(py, else_.value.body, inputs, env, scope, st, s, defined, ids);
      }
  }

  lemma CondExpansion(py: Operators, r: Region, inputs: map<string, PyVal>, env: map<string, PyVal>, scope: Scope,
                      st: State)
    requires r.Cond?
    ensures var v, expanded := Eval(py, r.predicate_, inputs + env), ExpandRegion(py, r, inputs, env, scope, st);
            if v.Err? then expanded.Err?
            else if !Truthy(v.value) && r.else_.None? then expanded == Ok(st)
            else
              var body := ExpandProgram(py, (if Truthy(v.value) then r.then_ else r.else_.value).body, inputs, env,
                                        scope, st);
              (expanded.Ok? <==> body.Ok?) && (expanded.Ok? ==> expanded.value.emitted == body.value.1.emitted)
  {
    hide ExpandProgram, ResolveAll, Eval;
  }

  lemma LoopExpansion(py: Operators, r: Region, inputs: map<string, PyVal>, env: map<string, PyVal>, scope: Scope,
                      st: State)
    requires r.Loop?
    ensures var count, expanded := TripCount(py, r.id, r.trip, inputs + env),
              ExpandRegion(py, r, inputs, env, scope, st);
            && (count.Err? ==> expanded.Err?)
            && (count.Ok? ==>
                  var loop := ExpandLoop(py, r, inputs, env, scope, ResolveAll(r.carryInit, scope, st.subst), 0,
                                         count.value, st);
                  (expanded.Ok? <==> loop.Ok?) && (expanded.Ok? ==> expanded.value.emitted == loop.value.1.emitted))
  {
    hide ExpandLoop, ResolveAll, TripCount;
  }

  /** `expanded` fails unless `expands`, and otherwise emits `count` more nodes of the signature. */
  ghost predicate Adds<T>(expanded: Result<(T, State), Error>, expands: bool, st: State, s: Signature, count: nat) {
    && (expanded.Ok? <==> expands)
    && (expanded.Ok? ==> Tally(expanded.value.1.emitted, s) == Tally(st.emitted, s) + count)
  }

  /** What is left of a loop after `i` iterations adds the body's count once for each of them. */
  lemma {:induction false} LoopCounts(py: Operators, r: Region, inputs: map<string, PyVal>, env: map<string, PyVal>,
                                      scope: Scope,
                                      current: map<string, NodeIO>, i: nat, count: nat, st: State, s: Signature,
                                      defined: set<IoName>, ids: set<string>)
    requires r.Loop? && i <= count && RegionScoped(r, defined, ids) && env.Keys <= ids
    ensures Adds(ExpandLoop(py, r, inputs, env, scope, current, i, count, st), i == count
                 || ProgramExpands(py, r.body, inputs),
                 st, s, Times(count - i, CountProgram(py, r.body, inputs, s)))
    decreases r.body, 1, count - i
  {
    hide *;
    if i == count {
      LoopEndAdds(py, r, inputs, env, scope, current, count, st, s);
    } else {
      IterationCounts(py, r, inputs, env, scope, current, i, st, s, defined, ids);
      var body := ExpandIteration(py, r, inputs, env, scope, current, i, st);
      if body.Ok? {
        var current1 := ResolveAll(r.carryOut, body.value.0, body.value.1.subst);
        LoopCounts(py, r, inputs, env, scope, current1, i + 1, count, body.value.1, s, defined, ids);
      }
      LoopAdds(py, r, inputs, env, scope, current, i, count, st, s);
    }
  }

  lemma LoopEndAdds(py: Operators, r: Region, inputs: map<string, PyVal>, env: map<string, PyVal>, scope: Scope,
                    current: map<string, NodeIO>, count: nat, st: State, s: Signature)
    requires r.Loop?
    ensures Adds(ExpandLoop(py, r, inputs, env, scope, current, count, count, st), true, st, s,
                 Times(0, CountProgram(py, r.body, inputs, s)))
  {
    hide ExpandProgram, ExpandIteration, CountProgram, Tally;
  }

  lemma LoopAdds(py: Operators, r: Region, inputs: map<string, PyVal>, env: map<string, PyVal>, scope: Scope,
                 current: map<string, NodeIO>, i: nat, count: nat, st: State, s: Signature)
    requires r.Loop? && i < count
    requires Adds(ExpandIteration(py, r, inputs, env, scope, current, i, st), ProgramExpands(py, r.body, inputs),
                  st, s, CountProgram(py, r.body, inputs, s))
    requires ExpandIteration(py, r, inputs, env, scope, current, i, st).Ok? ==>
               var body := ExpandIteration(py, r, inputs, env, scope, current, i, st).value;
               Adds(ExpandLoop(py, r, inputs, env, scope, ResolveAll(r.carryOut, body.0, body.1.subst), i + 1, count,
                               body.1),
                    i + 1 == count || ProgramExpands(py, r.body, inputs), body.1, s,
                      Times(count - (i + 1), CountProgram(py, r.body, inputs, s)))
    ensures Adds(ExpandLoop(py, r, inputs, env, scope, current, i, count, st), i == count
                 || ProgramExpands(py, r.body, inputs),
                 st, s, Times(count - i, CountProgram(py, r.body, inputs, s)))
  {
    hide ExpandProgram, ExpandLoop, ExpandIteration, CountProgram, ProgramExpands, ResolveAll, Tally, Times;
    TimesUnfolds(count - i, CountProgram(py, r.body, inputs, s));
    Errors.ExpandStepFault(py, r, inputs, env, scope, current, i, count, st);
    if ExpandLoop(py, r, inputs, env, scope, current, i, count, st).Ok? {
      LoopStepUnfolds(py, r, inputs, env, scope, current, i, count, st);
    }
  }

  lemma TimesUnfolds(n: nat, c: nat)
    requires n > 0
    ensures Times(n, c) == c + Times(n - 1, c)
  {
  }

  lemma {:induction false} IterationCounts(py: Operators, r: Region, inputs: map<string, PyVal>,
                                           env: map<string, PyVal>, scope: Scope,
                                           current: map<string, NodeIO>, i: nat, st: State, s: Signature,
                                           defined: set<IoName>, ids: set<string>)
    requires r.Loop? && RegionScoped(r, defined, ids) && env.Keys <= ids
    ensures Adds(ExpandIteration(py, r, inputs, env, scope, current, i, st), ProgramExpands(py, r.body, inputs),
                 st, s, CountProgram(py, r.body, inputs, s))
    decreases r.body, 1, 0
  {
    hide ExpandProgram, CountProgram, ProgramExpands, Scoped, Tally;
    ProgramCounts(py, r.body, inputs, env[r.id := PyInt(i)], IterationScope(r, i, current, scope), Inject(r, i, st), s,
                  LoopDefined(r, defined), ids);
  }

  // ---------------------------------------------------------------- counting on the whole workflow

  function CountRegions(py: Operators, regions: seq<Region>, inputs: map<string, PyVal>, s: Signature): nat {
    if regions == [] then 0 else CountRegion(py, regions[0], inputs, s) + CountRegions(py, regions[1..], inputs, s)
  }

  predicate RegionsExpand(py: Operators, regions: seq<Region>, inputs: map<string, PyVal>) {
    regions == [] || (RegionExpands(py, regions[0], inputs) && RegionsExpand(py, regions[1..], inputs))
  }

  lemma {:induction false} ItemsCounts(py: Operators, items: seq<Item>, inputs: map<string, PyVal>, st: State,
                                       s: Signature,
                                       defined: set<IoName>, ids: set<string>)
    requires ItemsScoped(items, defined, ids)
    ensures var expanded := ExpandRegions(py, RegionsOf(items), inputs, st);
            && (expanded.Ok? <==> RegionsExpand(py, RegionsOf(items), inputs))
            && (expanded.Ok? ==>
                Tally(expanded.value.emitted, s)
                  == Tally(st.emitted, s) + CountRegions(py, RegionsOf(items), inputs, s))
  {
    hide ExpandRegion, RegionExpands, CountRegion, RegionScoped, NodeScoped, Tally;
    if items == [] {
    } else if items[0].Plain? {
      assert RegionsOf(items) == RegionsOf(items[1..]);
      ItemsCounts(py, items[1..], inputs, st, s, defined + OutputNames(items[0].node), ids);
    } else {
      var r := items[0].region;
      assert RegionsOf(items)[1..] == RegionsOf(items[1..]);
      RegionCounts(py, r, inputs, map[], map[], st, s, defined, ids);
      var st1 := ExpandRegion(py, r, inputs, map[], map[], st);
      if st1.Ok? { ItemsCounts(py, items[1..], inputs, st1.value, s, defined + ResultNames(r), ids); }
    }
  }

  lemma SoundReads(g: Expanded, w: Workflow, inputs: map<string, PyVal>)
    requires Checks.Sound(g, w, inputs)
    ensures forall n | n in g.nodes :: NodeReadsIn(n, Resolvable(g, inputs))
  {
    forall n, k | n in g.nodes && k in n.inputs && n.inputs[k].Some?
      ensures n.inputs[k].value.name in Resolvable(g, inputs)
    {
      var io := n.inputs[k].value;
      assert Checks.EdgesOk(n, Checks.AllPlaceholders(w.regions),
                            Checks.RequestValues(inputs, g.injected) + g.outputs.Keys, Produces(g.nodes));
    }
  }

  /** The nodes of each signature in an expansion, told from the workflow and the request alone. */
  lemma ExpansionCounts(py: Operators, w: Workflow, items: seq<Item>, inputs: map<string, PyVal>, minted: nat,
                        s: Signature)
    requires WellScoped(w, items, inputs)
    ensures var g := Expand(py, w, inputs, minted);
            && (g.Ok? <==> RegionsExpand(py, w.regions, inputs))
            && (g.Ok? ==>
                Number(g.value.nodes, Resolvable(g.value, inputs), s)
                  == Tally(w.nodes, s) + CountRegions(py, w.regions, inputs, s))
  {
    ItemsCounts(py, items, inputs, Start(w, minted), s, RequestNames(inputs), IdsOfItems(items));
    var end := ExpandRegions(py, w.regions, inputs, Start(w, minted));
    if end.Ok? {
      var g := Expand(py, w, inputs, minted).value;
      Checks.ExpansionIsSound(py, w, items, inputs, minted, g);
      SoundReads(g, w, inputs);
      NumberIsTally(g.nodes, Resolvable(g, inputs), s);
      PatchedTally(end.value.emitted, end.value.subst, s);
    }
  }

  // ---------------------------------------------------------------- workflows linear in the step count

  /** The regions of a body, at any depth. */
  function Within(p: Program): set<Region>
    decreases p, 0
  {
    match p
    case Nil => {}
    case Cons(NodeOp(_), rest) => Within(rest)
    case Cons(RegionOp(r), rest) => WithinRegion(r) + Within(rest)
  }

  /** A region and those in its bodies. */
  function WithinRegion(r: Region): set<Region>
    decreases r, 0
  {
    match r
    case Loop(_, _, _, _, body) => {r} + Within(body)
    case Cond(_, _, _, then_, else_) =>
      {r} + Within(then_.body) + (if else_.Some? then Within(else_.value.body) else {})
  }

  predicate ReadsSteps(r: Region) {
    STEPS in FreeInputs(if r.Loop? then r.trip else r.predicate_)
  }

  predicate StepFree(p: Program)
    decreases p, 0
  {
    match p
    case Nil => true
    case Cons(NodeOp(_), rest) => StepFree(rest)
    case Cons(RegionOp(r), rest) => RegionStepFree(r) && StepFree(rest)
  }

  predicate RegionStepFree(r: Region)
    decreases r, 0
  {
    match r
    case Loop(_, trip, _, _, body) => STEPS !in FreeInputs(trip) && StepFree(body)
    case Cond(_, predicate_, _, then_, else_) =>
        STEPS !in FreeInputs(predicate_) && StepFree(then_.body) && (else_.Some? ==> StepFree(else_.value.body))
  }

  /** `value` is the value at `n` of the line with this constant and slope. */
  predicate OnLine(constant: int, slope: int, n: nat, value: int) {
    value == constant + slope * n
  }

  /** Wherever the trip count can be computed, the steps determine it linearly. */
  ghost predicate TripOnLine(py: Operators, id: string, trip: Expr, inputs: map<string, PyVal>,
                             constant: int, slope: int) {
    forall n: nat | TripCount(py, id, trip, At(inputs, n)).Ok? ::
      OnLine(constant, slope, n, TripCount(py, id, trip, At(inputs, n)).value)
  }

  ghost predicate AffineTrip(py: Operators, id: string, trip: Expr, inputs: map<string, PyVal>) {
    exists constant, slope :: TripOnLine(py, id, trip, inputs, constant, slope)
  }

  /**
   * Each trip count is linear in the steps or independent of them, loops that depend on the steps
   * do not nest, and no predicate reads the step count.
   */
  ghost predicate Linear(py: Operators, p: Program, inputs: map<string, PyVal>)
    decreases p, 0
  {
    match p
    case Nil => true
    case Cons(NodeOp(_), rest) => Linear(py, rest, inputs)
    case Cons(RegionOp(r), rest) => RegionLinear(py, r, inputs) && Linear(py, rest, inputs)
  }

  ghost predicate RegionLinear(py: Operators, r: Region, inputs: map<string, PyVal>)
    decreases r, 0
  {
    match r
    case Loop(id, trip, _, _, body) =>
      if STEPS in FreeInputs(trip) then AffineTrip(py, id, trip, inputs) && StepFree(body)
      else Linear(py, body, inputs)
    case Cond(_, predicate_, _, then_, else_) =>
      && STEPS !in FreeInputs(predicate_) && Linear(py, then_.body, inputs)
      && (else_.Some? ==> Linear(py, else_.value.body, inputs))
  }

  /** If the region reads the step count, it is a loop, linear in the steps, and no region in it reads them too. */
  ghost predicate Simple(py: Operators, r: Region, inputs: map<string, PyVal>) {
    ReadsSteps(r) ==>
      && r.Loop? && AffineTrip(py, r.id, r.trip, inputs)
      && forall q | q in Within(r.body) :: !ReadsSteps(q)
  }

  lemma {:induction false} NoneReadsSteps(p: Program)
    requires forall r | r in Within(p) :: !ReadsSteps(r)
    ensures StepFree(p)
    decreases p, 0
  {
    match p
    case Nil =>
    case Cons(NodeOp(_), rest) => NoneReadsSteps(rest);
    case Cons(RegionOp(r), rest) =>
      NoneInRegionReadsSteps(r);
      NoneReadsSteps(rest);
  }

  lemma {:induction false} NoneInRegionReadsSteps(r: Region)
    requires forall q | q in WithinRegion(r) :: !ReadsSteps(q)
    ensures RegionStepFree(r)
    decreases r, 0
  {
    assert r in WithinRegion(r);
    match r
    case Loop(_, _, _, _, body) => NoneReadsSteps(body);
    case Cond(_, _, _, then_, else_) =>
      NoneReadsSteps(then_.body);
      if else_.Some? { NoneReadsSteps(else_.value.body); }
  }

  lemma {:induction false} SimpleIsLinear(py: Operators, p: Program, inputs: map<string, PyVal>)
    requires forall r | r in Within(p) :: Simple(py, r, inputs)
    ensures Linear(py, p, inputs)
    decreases p, 0
  {
    hide Simple;
    match p
    case Nil =>
    case Cons(NodeOp(_), rest) => SimpleIsLinear(py, rest, inputs);
    case Cons(RegionOp(r), rest) =>
      SimpleRegionIsLinear(py, r, inputs);
      SimpleIsLinear(py, rest, inputs);
  }

  lemma {:induction false} SimpleRegionIsLinear(py: Operators, r: Region, inputs: map<string, PyVal>)
    requires forall q | q in WithinRegion(r) :: Simple(py, q, inputs)
    ensures RegionLinear(py, r, inputs)
    decreases r, 0
  {
    hide AffineTrip;
    assert r in WithinRegion(r) && Simple(py, r, inputs);
    match r
    case Loop(_, _, _, _, body) =>
      if ReadsSteps(r) { NoneReadsSteps(body); } else { SimpleIsLinear(py, body, inputs); }
    case Cond(_, _, _, then_, else_) =>
      SimpleIsLinear(py, then_.body, inputs);
      if else_.Some? { SimpleIsLinear(py, else_.value.body, inputs); }
  }

  lemma StepsIrrelevant(py: Operators, e: Expr, inputs: map<string, PyVal>, n: nat, m: nat)
    requires STEPS !in FreeInputs(e)
    ensures Eval(py, e, At(inputs, n)) == Eval(py, e, At(inputs, m))
  {
    EvalDependsOnFreeInputs(py, e, At(inputs, n), At(inputs, m));
  }

  lemma {:induction false} StepFreeCounts(py: Operators, p: Program, inputs: map<string, PyVal>, n: nat, m: nat,
                                          s: Signature)
    requires StepFree(p)
    ensures CountProgram(py, p, At(inputs, n), s) == CountProgram(py, p, At(inputs, m), s)
    ensures ProgramExpands(py, p, At(inputs, n)) <==> ProgramExpands(py, p, At(inputs, m))
    decreases p, 0
  {
    hide At;
    match p
    case Nil =>
    case Cons(NodeOp(_), rest) => StepFreeCounts(py, rest, inputs, n, m, s);
    case Cons(RegionOp(r), rest) =>
      RegionStepFreeCounts(py, r, inputs, n, m, s);
      StepFreeCounts(py, rest, inputs, n, m, s);
  }

  lemma {:induction false} RegionStepFreeCounts(py: Operators, r: Region, inputs: map<string, PyVal>, n: nat, m: nat,
                                                s: Signature)
    requires RegionStepFree(r)
    ensures CountRegion(py, r, At(inputs, n), s) == CountRegion(py, r, At(inputs, m), s)
    ensures RegionExpands(py, r, At(inputs, n)) <==> RegionExpands(py, r, At(inputs, m))
    decreases r, 0
  {
    hide At;
    match r
    case Loop(_, trip, _, _, body) =>
      StepsIrrelevant(py, trip, inputs, n, m);
      StepFreeCounts(py, body, inputs, n, m, s);
    case Cond(_, predicate_, _, then_, else_) =>
      StepsIrrelevant(py, predicate_, inputs, n, m);
      StepFreeCounts(py, then_.body, inputs, n, m, s);
      if else_.Some? { StepFreeCounts(py, else_.value.body, inputs, n, m, s); }
  }

  lemma Flat(c: nat)
    ensures forall n: nat :: OnLine(c, 0, n, c)
  {
  }

  lemma LinesAdd(f: int, df: int, fn: int, g: int, dg: int, gn: int, n: nat)
    requires OnLine(f, df, n, fn) && OnLine(g, dg, n, gn)
    ensures OnLine(f + g, df + dg, n, fn + gn)
  {
    assert df * n + dg * n == (df + dg) * n;
  }

  /** Repeated addition of an integer. */
  function Multiple(t: nat, c: int): int {
    if t == 0 then 0 else c + Multiple(t - 1, c)
  }

  lemma {:induction false} LineScales(t: nat, f: int, df: int, fn: nat, n: nat)
    requires OnLine(f, df, n, fn)
    ensures OnLine(Multiple(t, f), Multiple(t, df), n, Times(t, fn))
  {
    hide OnLine;
    if t == 0 {
      Flat(0);
    } else {
      LineScales(t - 1, f, df, fn, n);
      LinesAdd(f, df, fn, Multiple(t - 1, f), Multiple(t - 1, df), Times(t - 1, fn), n);
    }
  }

  lemma {:induction false} TimesIsProduct(n: nat, c: nat)
    ensures Times(n, c) == n * c
  {
    if n > 0 { TimesIsProduct(n - 1, c); }
  }

  /** A body of `c` nodes repeated as often as a line says. */
  lemma LineRepeats(constant: int, slope: int, n: nat, trips: nat, c: nat)
    requires OnLine(constant, slope, n, trips)
    ensures OnLine(constant * c, slope * c, n, Times(trips, c))
  {
    TimesIsProduct(trips, c);
    assert (slope * n) * c == (slope * c) * n;
    assert (constant + slope * n) * c == constant * c + (slope * n) * c;
  }

  /** The line on which a linear body's counts lie for every step count that expands. */
  lemma {:induction false} LineOf(py: Operators, p: Program, inputs: map<string, PyVal>, s: Signature)
    returns (constant: int, slope: int)
    requires Linear(py, p, inputs)
    ensures forall n: nat | ProgramExpands(py, p, At(inputs, n)) ::
              OnLine(constant, slope, n, CountProgram(py, p, At(inputs, n), s))
    decreases p, 0
  {
    hide At, OnLine, RegionLinear;
    match p
    case Nil =>
      Flat(0);
      constant, slope := 0, 0;
    case Cons(NodeOp(node), rest) =>
      var k, d := LineOf(py, rest, inputs, s);
      Flat(One(node, s));
      constant, slope := One(node, s) + k, 0 + d;
      forall n: nat | ProgramExpands(py, p, At(inputs, n))
        ensures OnLine(constant, slope, n, CountProgram(py, p, At(inputs, n), s))
      {
        LinesAdd(One(node, s), 0, One(node, s), k, d, CountProgram(py, rest, At(inputs, n), s), n);
      }
    case Cons(RegionOp(r), rest) =>
      var k0, d0 := LineOfRegion(py, r, inputs, s);
      var k, d := LineOf(py, rest, inputs, s);
      constant, slope := k0 + k, d0 + d;
      forall n: nat | ProgramExpands(py, p, At(inputs, n))
        ensures OnLine(constant, slope, n, CountProgram(py, p, At(inputs, n), s))
      {
        LinesAdd(k0, d0, CountRegion(py, r, At(inputs, n), s), k, d, CountProgram(py, rest, At(inputs, n), s), n);
      }
  }

  lemma {:induction false} LineOfRegion(py: Operators, r: Region, inputs: map<string, PyVal>, s: Signature)
    returns (constant: int, slope: int)
    requires RegionLinear(py, r, inputs)
    ensures forall n: nat | RegionExpands(py, r, At(inputs, n)) ::
              OnLine(constant, slope, n, CountRegion(py, r, At(inputs, n), s))
    decreases r, 0
  {
    hide At, OnLine, Eval, Linear;
    match r
    case Loop(id, trip, _, _, body) =>
      if STEPS in FreeInputs(trip) {
        constant, slope := LineOfStepLoop(py, r, inputs, s);
      } else {
        var t := Trips(py, id, trip, At(inputs, 0));
        var k, d := LineOf(py, body, inputs, s);
        constant, slope := Multiple(t, k), Multiple(t, d);
        forall n: nat | RegionExpands(py, r, At(inputs, n))
          ensures OnLine(constant, slope, n, CountRegion(py, r, At(inputs, n), s))
        {
          StepsIrrelevant(py, trip, inputs, 0, n);
          if t == 0 { Flat(0); } else { LineScales(t, k, d, CountProgram(py, body, At(inputs, n), s), n); }
        }
      }
    case Cond(_, predicate_, _, then_, else_) =>
      var v := Eval(py, predicate_, At(inputs, 0));
      forall n: nat ensures Eval(py, predicate_, At(inputs, n)) == v {
        StepsIrrelevant(py, predicate_, inputs, 0, n);
      }
      if v.Err? || (!Truthy(v.value) && else_.None?) {
        Flat(0);
        constant, slope := 0, 0;
      } else if Truthy(v.value) {
        constant, slope := LineOf(py, then_.body, inputs, s);
      } else {
        constant, slope := LineOf(py, else_.value.body, inputs, s);
      }
  }

  lemma LineOfStepLoop(py: Operators, r: Region, inputs: map<string, PyVal>, s: Signature)
    returns (constant: int, slope: int)
    requires r.Loop? && AffineTrip(py, r.id, r.trip, inputs) && StepFree(r.body)
    ensures forall n: nat | RegionExpands(py, r, At(inputs, n)) ::
              OnLine(constant, slope, n, CountRegion(py, r, At(inputs, n), s))
  {
    hide At, OnLine, TripCount;
    var k: int, d: int :| TripOnLine(py, r.id, r.trip, inputs, k, d);
    var c := CountProgram(py, r.body, At(inputs, 0), s);
    constant, slope := k * c, d * c;
    forall n: nat | RegionExpands(py, r, At(inputs, n))
      ensures OnLine(constant, slope, n, CountRegion(py, r, At(inputs, n), s))
    {
      StepFreeCounts(py, r.body, inputs, 0, n, s);
      LineRepeats(k, d, n, TripCount(py, r.id, r.trip, At(inputs, n)).value, c);
    }
  }

  // ---------------------------------------------------------------- derived trip counts

  lemma StepTripIsAffine(py: Operators, id: string, inputs: map<string, PyVal>)
    ensures AffineTrip(py, id, InputRef(STEPS), inputs)
  {
    assert TripOnLine(py, id, InputRef(STEPS), inputs, 0, 1);
  }

  /** One step fewer, the derived trip count that expressions are made for. */
  lemma OneLessIsAffine(py: Operators, id: string, inputs: map<string, PyVal>)
    requires forall x, y :: py.bin("-", PyInt(x), PyInt(y)) == Some(PyInt(x - y))
    ensures AffineTrip(py, id, BinOp("-", InputRef(STEPS), Const(PyInt(1))), inputs)
  {
    var trip := BinOp("-", InputRef(STEPS), Const(PyInt(1)));
    forall n: nat | TripCount(py, id, trip, At(inputs, n)).Ok?
      ensures OnLine(-1, 1, n, TripCount(py, id, trip, At(inputs, n)).value)
    {
      assert Eval(py, InputRef(STEPS), At(inputs, n)) == Ok(PyInt(n));
      assert Eval(py, Const(PyInt(1)), At(inputs, n)) == Ok(PyInt(1));
      assert py.bin("-", PyInt(n), PyInt(1)) == Some(PyInt(n - 1));
    }
    assert TripOnLine(py, id, trip, inputs, -1, 1);
  }

  // ---------------------------------------------------------------- workflows that expand for every step count

  /** Trip counts that depend on the steps are the step count itself. */
  predicate PlainSteps(p: Program)
    decreases p, 0
  {
    match p
    case Nil => true
    case Cons(NodeOp(_), rest) => PlainSteps(rest)
    case Cons(RegionOp(r), rest) => RegionPlainSteps(r) && PlainSteps(rest)
  }

  predicate RegionPlainSteps(r: Region)
    decreases r, 0
  {
    match r
    case Loop(_, trip, _, _, body) => (STEPS in FreeInputs(trip) ==> trip == InputRef(STEPS)) && PlainSteps(body)
    case Cond(_, predicate_, _, then_, else_) =>
      && STEPS !in FreeInputs(predicate_) && PlainSteps(then_.body)
      && (else_.Some? ==> PlainSteps(else_.value.body))
  }

  /** If the region reads the step count, it is a loop that runs once per step. */
  predicate Plain(r: Region) {
    ReadsSteps(r) ==> r.Loop? && r.trip == InputRef(STEPS)
  }

  lemma {:induction false} AllPlain(p: Program)
    requires forall r | r in Within(p) :: Plain(r)
    ensures PlainSteps(p)
    decreases p, 0
  {
    match p
    case Nil =>
    case Cons(NodeOp(_), rest) => AllPlain(rest);
    case Cons(RegionOp(r), rest) =>
      AllPlainInRegion(r);
      AllPlain(rest);
  }

  lemma {:induction false} AllPlainInRegion(r: Region)
    requires forall q | q in WithinRegion(r) :: Plain(q)
    ensures RegionPlainSteps(r)
    decreases r, 0
  {
    assert r in WithinRegion(r);
    match r
    case Loop(_, _, _, _, body) => AllPlain(body);
    case Cond(_, _, _, then_, else_) =>
      AllPlain(then_.body);
      if else_.Some? { AllPlain(else_.value.body); }
  }

  /** If such a body expands for some positive step count, it does for every one. */
  lemma {:induction false} StepsExpand(py: Operators, p: Program, inputs: map<string, PyVal>, a: nat, n: nat)
    requires PlainSteps(p) && a >= 1 && ProgramExpands(py, p, At(inputs, a))
    ensures ProgramExpands(py, p, At(inputs, n))
    decreases p, 0
  {
    hide At;
    match p
    case Nil =>
    case Cons(NodeOp(_), rest) => StepsExpand(py, rest, inputs, a, n);
    case Cons(RegionOp(r), rest) =>
      RegionStepsExpand(py, r, inputs, a, n);
      StepsExpand(py, rest, inputs, a, n);
  }

  lemma {:induction false} RegionStepsExpand(py: Operators, r: Region, inputs: map<string, PyVal>, a: nat, n: nat)
    requires RegionPlainSteps(r) && a >= 1 && RegionExpands(py, r, At(inputs, a))
    ensures RegionExpands(py, r, At(inputs, n))
    decreases r, 0
  {
    match r
    case Loop(id, trip, _, _, body) =>
      if trip == InputRef(STEPS) {
        StepsExpand(py, body, inputs, a, n);
      } else {
        StepsIrrelevant(py, trip, inputs, a, n);
        if TripCount(py, id, trip, At(inputs, a)).value > 0 { StepsExpand(py, body, inputs, a, n); }
      }
    case Cond(_, predicate_, _, then_, else_) =>
      StepsIrrelevant(py, predicate_, inputs, a, n);
      var v := Eval(py, predicate_, At(inputs, a));
      if Truthy(v.value) { StepsExpand(py, then_.body, inputs, a, n); }
      else if else_.Some? { StepsExpand(py, else_.value.body, inputs, a, n); }
  }

  // ---------------------------------------------------------------- solving for the occurrences

  datatype Occurrence = Occurrence(constant: int, perStep: int)

  function Predicted(o: map<Signature, Occurrence>, s: Signature, n: nat): int {
    if s in o then o[s].constant + o[s].perStep * n else 0
  }

  function Lookup(counts: map<Signature, nat>, s: Signature): nat {
    if s in counts then counts[s] else 0
  }

  /** Two counts, at `a` and at `2 * a` steps, as a constant and a slope. */
  function Solve(countA: nat, countB: nat, a: nat): Occurrence
    requires a >= 1
  {
    var perStep := (countB - countA) / a;
    Occurrence(countA - perStep * a, perStep)
  }

  /** The solution is the line on which both counts lie. */
  lemma SolveFindsTheLine(constant: int, slope: int, fa: nat, fb: nat, a: nat)
    requires a >= 1 && OnLine(constant, slope, a, fa) && OnLine(constant, slope, 2 * a, fb)
    ensures Solve(fa, fb, a) == Occurrence(constant, slope)
  {
    hide OnLine;
    DoubleStep(constant, slope, fa, fb, a);
    QuotientOf(fb - fa, slope, a);
  }

  lemma DoubleStep(constant: int, slope: int, fa: nat, fb: nat, a: nat)
    requires OnLine(constant, slope, a, fa) && OnLine(constant, slope, 2 * a, fb)
    ensures fb - fa == slope * a && fa - slope * a == constant
  {
    assert slope * (2 * a) == 2 * (slope * a);
  }

  lemma QuotientOf(product: int, x: int, a: nat)
    requires a >= 1 && product == x * a
    ensures product / a == x
  {
    var q := product / a;
    assert product == q * a + product % a;
    assert (x - q) * a == x * a - q * a;
    SmallMultipleIsZero(x - q, a);
  }

  lemma SmallMultipleIsZero(k: int, a: nat)
    requires a >= 1 && 0 <= k * a < a
    ensures k == 0
  {
    if k >= 1 {
      MultiplesGrow(1, k, a);
    } else if k <= -1 {
      MultiplesGrow(k, -1, a);
    }
  }

  lemma MultiplesGrow(x: int, y: int, a: nat)
    requires x <= y
    ensures x * a <= y * a
  {
  }

  method CountNodes(g: Expanded, inputs: map<string, PyVal>) returns (counts: map<Signature, nat>)
    ensures forall s :: Lookup(counts, s) == Number(g.nodes, Resolvable(g, inputs), s)
  {
    var resolvable := Resolvable(g, inputs);
    counts := map[];
    for i := 0 to |g.nodes|
      invariant forall s :: Lookup(counts, s) == Number(g.nodes[..i], resolvable, s)
    {
      var signature := StaticSignature(g.nodes[i], resolvable);
      counts := counts[signature := Lookup(counts, signature) + 1];
      assert g.nodes[..i + 1][..i] == g.nodes[..i];
    }
    assert g.nodes[..|g.nodes|] == g.nodes;
  }

  function ProfiledSteps(profileSteps: int): (a: nat)
    ensures 1 <= a && profileSteps <= a && (a == 1 || a == profileSteps)
  {
    if profileSteps < 1 then 1 else profileSteps
  }

  /** Some expansion for `n` steps, whatever names it mints, has these many nodes of each signature. */
  ghost predicate Counted(py: Operators, w: Workflow, inputs: map<string, PyVal>, n: nat, minted: nat,
                          counts: map<Signature, nat>)
  {
    var g := Expand(py, w, At(inputs, n), minted);
    g.Ok? && forall s :: Lookup(counts, s) == Number(g.value.nodes, Resolvable(g.value, At(inputs, n)), s)
  }

  function Occurrences(countsA: map<Signature, nat>, countsB: map<Signature, nat>, a: nat): map<Signature, Occurrence>
    requires a >= 1
  {
    map s | s in countsA.Keys + countsB.Keys :: Solve(Lookup(countsA, s), Lookup(countsB, s), a)
  }

  /** The prediction is right for every step count that expands, whatever names the expansion mints. */
  ghost predicate Exact(py: Operators, w: Workflow, inputs: map<string, PyVal>, o: map<Signature, Occurrence>) {
    forall n: nat, minted: nat, s: Signature :: ExactAt(py, w, inputs, o, n, minted, s)
  }

  ghost predicate ExactAt(py: Operators, w: Workflow, inputs: map<string, PyVal>, o: map<Signature, Occurrence>,
                          n: nat, minted: nat, s: Signature) {
    var g := Expand(py, w, At(inputs, n), minted);
    g.Ok? ==> Number(g.value.nodes, Resolvable(g.value, At(inputs, n)), s) == Predicted(o, s, n)
  }

  /** Loops and branches contribute to `s` what the line says, for every step count that expands. */
  ghost predicate CountsOnLine(py: Operators, w: Workflow, inputs: map<string, PyVal>, s: Signature,
                               constant: int, slope: int) {
    forall n: nat | RegionsExpand(py, w.regions, At(inputs, n)) ::
      OnLine(constant, slope, n, CountRegions(py, w.regions, At(inputs, n), s))
  }

  ghost predicate AffineCount(py: Operators, w: Workflow, inputs: map<string, PyVal>, s: Signature) {
    exists constant, slope :: CountsOnLine(py, w, inputs, s, constant, slope)
  }

  /** What loops and branches contribute is linear in the steps, for every signature. */
  ghost predicate AffineCounts(py: Operators, w: Workflow, inputs: map<string, PyVal>) {
    forall s :: AffineCount(py, w, inputs, s)
  }

  /** solve_occurrences: expand for two step counts and solve; exact on exactly the workflows with linear counts. */
  method SolveOccurrences(py: Operators, w: Workflow, inputs: map<string, PyVal>, profileSteps: int, minted: nat)
    returns (r: Result<map<Signature, Occurrence>, Expander.Failure>)
    ensures r.Ok? ==> exists countsA, countsB, minted' ::
              && Counted(py, w, inputs, ProfiledSteps(profileSteps), minted, countsA)
              && Counted(py, w, inputs, 2 * ProfiledSteps(profileSteps), minted', countsB)
              && r.value == Occurrences(countsA, countsB, ProfiledSteps(profileSteps))
    ensures r.Ok? ==> forall items | WellScoped(w, items, At(inputs, 0)) ::
              Exact(py, w, inputs, r.value) <==> AffineCounts(py, w, inputs)
  {
    hide Expand, WellScoped, Exact, AffineCounts, Number;
    var a := ProfiledSteps(profileSteps);
    var expandedA := Expander.ExpandWorkflow(py, w, At(inputs, a), minted);
    if expandedA.Err? { return Err(expandedA.error); }
    var countsA := CountNodes(expandedA.value, At(inputs, a));
    var minted' := minted + |expandedA.value.nodes|;
    var expandedB := Expander.ExpandWorkflow(py, w, At(inputs, 2 * a), minted');
    if expandedB.Err? { return Err(expandedB.error); }
    var countsB := CountNodes(expandedB.value, At(inputs, 2 * a));
    assert Counted(py, w, inputs, a, minted, countsA) && Counted(py, w, inputs, 2 * a, minted', countsB);
    r := Ok(Occurrences(countsA, countsB, a));
    forall items | WellScoped(w, items, At(inputs, 0))
      ensures Exact(py, w, inputs, r.value) <==> AffineCounts(py, w, inputs)
    {
      OccurrencesAreExactly(py, w, items, inputs, a, minted, minted', countsA, countsB);
    }
  }

  lemma ScopedForAnySteps(w: Workflow, items: seq<Item>, inputs: map<string, PyVal>, n: nat)
    requires WellScoped(w, items, At(inputs, 0))
    ensures WellScoped(w, items, At(inputs, n))
  {
    assert RequestNames(At(inputs, n)) == RequestNames(At(inputs, 0));
  }

  /** Two expansions tell the node counts of all of them if and only if these are linear in the steps. */
  lemma OccurrencesAreExactly(py: Operators, w: Workflow, items: seq<Item>, inputs: map<string, PyVal>, a: nat,
                              minted: nat, minted': nat, countsA: map<Signature, nat>, countsB: map<Signature, nat>)
    requires WellScoped(w, items, At(inputs, 0)) && a >= 1
    requires Counted(py, w, inputs, a, minted, countsA) && Counted(py, w, inputs, 2 * a, minted', countsB)
    ensures Exact(py, w, inputs, Occurrences(countsA, countsB, a)) <==> AffineCounts(py, w, inputs)
  {
    hide WellScoped, Counted, Occurrences, ExactAt, CountsOnLine;
    var o := Occurrences(countsA, countsB, a);
    if AffineCounts(py, w, inputs) {
      forall n: nat, m: nat, s: Signature ensures ExactAt(py, w, inputs, o, n, m, s) {
        assert AffineCount(py, w, inputs, s);
        var constant, slope :| CountsOnLine(py, w, inputs, s, constant, slope);
        LinearIsPredicted(py, w, items, inputs, a, minted, minted', countsA, countsB, constant, slope, n, m, s);
      }
    }
    if Exact(py, w, inputs, o) {
      forall s ensures AffineCount(py, w, inputs, s) {
        PredictedIsLinear(py, w, items, inputs, o, s);
      }
    }
  }

  lemma LinearIsPredicted(py: Operators, w: Workflow, items: seq<Item>, inputs: map<string, PyVal>, a: nat,
                          minted: nat, minted': nat, countsA: map<Signature, nat>, countsB: map<Signature, nat>,
                          constant: int, slope: int, n: nat, m: nat, s: Signature)
    requires WellScoped(w, items, At(inputs, 0)) && a >= 1 && CountsOnLine(py, w, inputs, s, constant, slope)
    requires Counted(py, w, inputs, a, minted, countsA) && Counted(py, w, inputs, 2 * a, minted', countsB)
    ensures ExactAt(py, w, inputs, Occurrences(countsA, countsB, a), n, m, s)
  {
    hide WellScoped, At, OnLine, Expand, RegionsExpand, CountRegions, Number, Resolvable, Occurrences, Predicted, Tally;
    CountIs(py, w, items, inputs, a, minted, s, constant, slope);
    CountIs(py, w, items, inputs, 2 * a, minted', s, constant, slope);
    CountIs(py, w, items, inputs, n, m, s, constant, slope);
    var plain := Tally(w.nodes, s);
    if Expand(py, w, At(inputs, n), m).Ok? {
      var g := Expand(py, w, At(inputs, n), m).value;
      LinePredicted(plain + constant, slope, countsA, countsB, a, s, n,
                    Number(g.nodes, Resolvable(g, At(inputs, n)), s));
    }
  }

  /** The nodes of one signature in the expansion for `n` steps, told by the line of its loops and branches. */
  lemma CountIs(py: Operators, w: Workflow, items: seq<Item>, inputs: map<string, PyVal>, n: nat, minted: nat,
                s: Signature, constant: int, slope: int)
    requires WellScoped(w, items, At(inputs, 0)) && CountsOnLine(py, w, inputs, s, constant, slope)
    ensures var g := Expand(py, w, At(inputs, n), minted);
            g.Ok? ==> OnLine(Tally(w.nodes, s) + constant, slope, n,
                             Number(g.value.nodes, Resolvable(g.value, At(inputs, n)), s))
  {
    hide WellScoped, At, Expand, RegionsExpand, CountRegions, Number, Resolvable, Tally;
    ScopedForAnySteps(w, items, inputs, n);
    ExpansionCounts(py, w, items, At(inputs, n), minted, s);
  }

  lemma PredictedIsLinear(py: Operators, w: Workflow, items: seq<Item>, inputs: map<string, PyVal>,
                          o: map<Signature, Occurrence>, s: Signature)
    requires WellScoped(w, items, At(inputs, 0)) && Exact(py, w, inputs, o)
    ensures AffineCount(py, w, inputs, s)
  {
    hide WellScoped, At, Expand, RegionsExpand, CountRegions, Number, Resolvable, Tally;
    var line := if s in o then o[s] else Occurrence(0, 0);
    forall n: nat | RegionsExpand(py, w.regions, At(inputs, n))
      ensures OnLine(line.constant - Tally(w.nodes, s), line.perStep, n, CountRegions(py, w.regions, At(inputs, n), s))
    {
      ScopedForAnySteps(w, items, inputs, n);
      ExpansionCounts(py, w, items, At(inputs, n), 0, s);
      assert ExactAt(py, w, inputs, o, n, 0, s);
    }
    assert CountsOnLine(py, w, inputs, s, line.constant - Tally(w.nodes, s), line.perStep);
  }

  lemma LinePredicted(constant: int, slope: int, countsA: map<Signature, nat>, countsB: map<Signature, nat>, a: nat,
                      s: Signature, n: nat, fn: nat)
    requires a >= 1 && OnLine(constant, slope, a, Lookup(countsA, s))
    requires OnLine(constant, slope, 2 * a, Lookup(countsB, s)) && OnLine(constant, slope, n, fn)
    ensures fn == Predicted(Occurrences(countsA, countsB, a), s, n)
  {
    hide Solve;
    SolveFindsTheLine(constant, slope, Lookup(countsA, s), Lookup(countsB, s), a);
    if s !in countsA && s !in countsB {
      NothingSolvesToNothing(a);
      assert constant == 0 && slope == 0;
    }
  }

  lemma NothingSolvesToNothing(a: nat)
    requires a >= 1
    ensures Solve(0, 0, a) == Occurrence(0, 0)
  {
  }

  // ---------------------------------------------------------------- linear workflows

  lemma {:induction false} LineOfRegions(py: Operators, regions: seq<Region>, inputs: map<string, PyVal>, s: Signature)
    returns (constant: int, slope: int)
    requires forall r | r in regions :: RegionLinear(py, r, inputs)
    ensures forall n: nat | RegionsExpand(py, regions, At(inputs, n)) ::
              OnLine(constant, slope, n, CountRegions(py, regions, At(inputs, n), s))
  {
    hide At, OnLine, RegionLinear, RegionExpands, CountRegion;
    if regions == [] {
      Flat(0);
      constant, slope := 0, 0;
    } else {
      var r, rest := regions[0], regions[1..];
      var k0, d0 := LineOfRegion(py, r, inputs, s);
      var k, d := LineOfRegions(py, rest, inputs, s);
      constant, slope := k0 + k, d0 + d;
      forall n: nat | RegionsExpand(py, regions, At(inputs, n))
        ensures OnLine(constant, slope, n, CountRegions(py, regions, At(inputs, n), s))
      {
        LinesAdd(k0, d0, CountRegion(py, r, At(inputs, n), s), k, d, CountRegions(py, rest, At(inputs, n), s), n);
      }
    }
  }

  /** Linear trip counts that do not nest give linear counts. */
  lemma LinearTripsSuffice(py: Operators, w: Workflow, inputs: map<string, PyVal>)
    requires forall r, q | r in w.regions && q in WithinRegion(r) :: Simple(py, q, inputs)
    ensures AffineCounts(py, w, inputs)
  {
    hide RegionsExpand, CountRegions, At, OnLine, WithinRegion, Simple, RegionLinear;
    forall r | r in w.regions ensures RegionLinear(py, r, inputs) {
      SimpleRegionIsLinear(py, r, inputs);
    }
    forall s ensures AffineCount(py, w, inputs, s) {
      var constant, slope := LineOfRegions(py, w.regions, inputs, s);
      assert CountsOnLine(py, w, inputs, s, constant, slope);
    }
  }

  lemma {:induction false} RegionsStepsExpand(py: Operators, regions: seq<Region>, inputs: map<string, PyVal>, a: nat,
                                              n: nat)
    requires (forall r | r in regions :: RegionPlainSteps(r)) && a >= 1 && RegionsExpand(py, regions, At(inputs, a))
    ensures RegionsExpand(py, regions, At(inputs, n))
  {
    if regions != [] {
      RegionStepsExpand(py, regions[0], inputs, a, n);
      RegionsStepsExpand(py, regions[1..], inputs, a, n);
    }
  }

  /** With no derived trip counts, one expansion that succeeds tells that all of them do. */
  lemma EveryStepCountExpands(py: Operators, w: Workflow, items: seq<Item>, inputs: map<string, PyVal>, a: nat,
                              minted: nat, n: nat, m: nat)
    requires WellScoped(w, items, At(inputs, 0)) && a >= 1
    requires forall r, q | r in w.regions && q in WithinRegion(r) :: Plain(q)
    requires Expand(py, w, At(inputs, a), minted).Ok?
    ensures Expand(py, w, At(inputs, n), m).Ok?
  {
    hide WellScoped, At, Expand, RegionsExpand, CountRegions, Number, Resolvable, Tally;
    ScopedForAnySteps(w, items, inputs, a);
    ScopedForAnySteps(w, items, inputs, n);
    ExpansionCounts(py, w, items, At(inputs, a), minted, Signature("", "", {}));
    ExpansionCounts(py, w, items, At(inputs, n), m, Signature("", "", {}));
    forall r | r in w.regions ensures RegionPlainSteps(r) {
      AllPlainInRegion(r);
    }
    RegionsStepsExpand(py, w.regions, inputs, a, n);
  }

  // ---------------------------------------------------------------- nested step loops

  /** A request with the value that the loops carry. */
  const LATENT := map["latent" := PyStr("noise")]

  /** One node inside two nested loops that both run once per step; each step refines the carried value. */
  const STEPNODE := Node(Authored("step", 0), "step", "run",
                         map["x" := Some(NodeIO(Carry("inner", "x"), NODE))], {"y"}, {"y"})

  const INNER := Loop("inner", InputRef(STEPS), map["x" := NodeIO(Carry("outer", "x"), NODE)],
                      map["x" := NodeIO(Output(STEPNODE.name, "y"), NODE)], Cons(NodeOp(STEPNODE), Nil))

  const NESTED := Loop("outer", InputRef(STEPS), map["x" := NodeIO(Request("latent"), INPUT)],
                       map["x" := NodeIO(ResultOf("inner", "x"), NODE)], Cons(RegionOp(INNER), Nil))

  const NESTEDWORKFLOW := Workflow([], [NESTED], [(ResultOf("outer", "x"), "image")])

  lemma InnerScoped(defined: set<IoName>)
    requires Carry("outer", "x") in defined
    ensures RegionScoped(INNER, defined, {"outer", "inner"})
  {
    var inside := LoopDefined(INNER, defined);
    assert IdsOf(INNER.body) == {};
    assert Carry("inner", "x") in inside && NodeScoped(STEPNODE, inside);
    assert Output(STEPNODE.name, "y") in OutputNames(STEPNODE);
    assert Defined(INNER.body, inside) == inside + OutputNames(STEPNODE);
  }

  lemma NestedScoped(n: nat)
    ensures WellScoped(NESTEDWORKFLOW, [Reg(NESTED)], At(LATENT, n))
  {
    var items, none: seq<Item> := [Reg(NESTED)], [];
    assert items[1..] == none;
    assert PlainsOf(none) == [] && RegionsOf(none) == [] && IdsOfItems(none) == {};
    assert PlainsOf(items) == [] && RegionsOf(items) == [NESTED];
    var defined := RequestNames(At(LATENT, n));
    assert "latent" in At(LATENT, n) && Request("latent") in defined;
    NestedRegionScoped(defined);
    assert IdsOfItems(items) == {"outer", "inner"};
    assert ResultOf("outer", "x") in ResultNames(NESTED);
    assert ItemsScoped(none, defined + ResultNames(NESTED), {"outer", "inner"});
    assert ItemsDefined(none, defined + ResultNames(NESTED)) == defined + ResultNames(NESTED);
  }

  lemma NestedRegionScoped(defined: set<IoName>)
    requires Request("latent") in defined
    ensures RegionScoped(NESTED, defined, {"outer", "inner"}) && IdsOfRegion(NESTED) == {"outer", "inner"}
  {
    hide RegionScoped, IdsOfRegion, IdsOf;
    InnerIds();
    assert Carry("outer", "x") in LoopDefined(NESTED, defined);
    InnerScoped(LoopDefined(NESTED, defined));
    assert ResultOf("inner", "x") in ResultNames(INNER);
    assert {STEPS} !! {"outer", "inner"};
    AroundOne("outer", InputRef(STEPS), NESTED.carryInit, NESTED.carryOut, INNER, defined, {"outer", "inner"});
  }

  lemma InnerIds()
    ensures IdsOfRegion(INNER) == {"inner"}
  {
    assert IdsOf(INNER.body) == {};
  }

  /** A loop around one region is scoped if that region is. */
  lemma AroundOne(id: string, trip: Expr, init: map<string, NodeIO>, out: map<string, NodeIO>, r: Region,
                  defined: set<IoName>, ids: set<string>)
    requires id in ids && FreeInputs(trip) !! ids && out.Keys == init.Keys && MapReadsIn(init, defined)
    requires id !in IdsOfRegion(r)
    requires RegionScoped(r, LoopDefined(Loop(id, trip, init, out, Cons(RegionOp(r), Nil)), defined), ids)
    requires MapReadsIn(out, LoopDefined(Loop(id, trip, init, out, Cons(RegionOp(r), Nil)), defined) + ResultNames(r))
    ensures RegionScoped(Loop(id, trip, init, out, Cons(RegionOp(r), Nil)), defined, ids)
    ensures IdsOfRegion(Loop(id, trip, init, out, Cons(RegionOp(r), Nil))) == {id} + IdsOfRegion(r)
  {
    var inside := LoopDefined(Loop(id, trip, init, out, Cons(RegionOp(r), Nil)), defined);
    assert IdsOf(Nil) == {} && IdsOf(Cons(RegionOp(r), Nil)) == IdsOfRegion(r);
    assert Scoped(Nil, inside + ResultNames(r), ids);
    assert Scoped(Cons(RegionOp(r), Nil), inside, ids);
    assert Defined(Cons(RegionOp(r), Nil), inside) == inside + ResultNames(r);
  }

  /** A loop that runs once per step multiplies by the steps. */
  lemma StepLoopCounts(py: Operators, r: Region, inputs: map<string, PyVal>, n: nat, s: Signature, c: nat)
    requires r.Loop? && r.trip == InputRef(STEPS) && ProgramExpands(py, r.body, At(inputs, n))
    requires CountProgram(py, r.body, At(inputs, n), s) == c
    ensures CountRegion(py, r, At(inputs, n), s) == n * c && RegionExpands(py, r, At(inputs, n))
  {
    hide ProgramExpands, CountProgram, Times;
    TimesIsProduct(n, c);
  }

  lemma OneRegionCounts(py: Operators, r: Region, inputs: map<string, PyVal>, s: Signature)
    ensures CountProgram(py, Cons(RegionOp(r), Nil), inputs, s) == CountRegion(py, r, inputs, s)
    ensures ProgramExpands(py, Cons(RegionOp(r), Nil), inputs) <==> RegionExpands(py, r, inputs)
    ensures CountRegions(py, [r], inputs, s) == CountRegion(py, r, inputs, s)
    ensures RegionsExpand(py, [r], inputs) <==> RegionExpands(py, r, inputs)
  {
    hide CountRegion, RegionExpands;
    assert CountProgram(py, Nil, inputs, s) == 0;
    assert [r][1..] == [];
  }

  /** The expansion for `n` steps has `n * n` such nodes. */
  lemma NestedCounts(py: Operators, n: nat, minted: nat)
    ensures var g := Expand(py, NESTEDWORKFLOW, At(LATENT, n), minted);
            g.Ok? && Number(g.value.nodes, Resolvable(g.value, At(LATENT, n)), Shape(STEPNODE)) == n * n
  {
    hide Expand, WellScoped, CountRegion, RegionExpands, CountRegions, RegionsExpand, Number, Resolvable, At;
    var inputs, s := At(LATENT, n), Shape(STEPNODE);
    NestedScoped(n);
    ExpansionCounts(py, NESTEDWORKFLOW, [Reg(NESTED)], inputs, minted, s);
    assert CountProgram(py, INNER.body, inputs, s) == 1;
    StepLoopCounts(py, INNER, LATENT, n, s, 1);
    OneRegionCounts(py, INNER, inputs, s);
    StepLoopCounts(py, NESTED, LATENT, n, s, n);
    OneRegionCounts(py, NESTED, inputs, s);
  }

  lemma SquaresAreNoLine(o: map<Signature, Occurrence>, s: Signature) returns (n: nat)
    ensures Predicted(o, s, n) != n * n
  {
    n := if Predicted(o, s, 0) != 0 then 0 else if Predicted(o, s, 1) != 1 then 1 else 2;
  }

  /** No solution is exact on it. */
  lemma NestedStepsNotLinear(py: Operators, o: map<Signature, Occurrence>)
    ensures !Exact(py, NESTEDWORKFLOW, LATENT, o)
  {
    var n := SquaresAreNoLine(o, Shape(STEPNODE));
    NestedCounts(py, n, 0);
    assert !ExactAt(py, NESTEDWORKFLOW, LATENT, o, n, 0, Shape(STEPNODE));
  }
}
