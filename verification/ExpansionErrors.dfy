/** Expansion fails exactly when the direct run fails, with the same error. */
module ExpansionErrors {
  import opened Wrappers
  import opened Expressions
  import opened Workflows
  import opened Expansion
  import opened Interpreter
  import opened Simulation
  import opened WholeWorkflow

  function Fault<T>(r: Result<T, Error>): Option<Error> {
    match r case Ok(_) => None case Err(e) => Some(e)
  }

  lemma {:induction false} ProgramFaults<V>(py: Operators, sem: Semantics<V>, p: Program, inputs: map<string, PyVal>,
                                            env: map<string, PyVal>,
                                            scope: Scope, st: State, rho: Store<V>, defined: set<IoName>,
                                            ids: set<string>)
    requires Scoped(p, defined, ids) && env.Keys <= ids
    ensures Fault(ExpandProgram(py, p, inputs, env, scope, st)) == Fault(RunProgram(py, sem, p, inputs, rho))
    decreases p, 0
  {
    match p
    case Nil =>
    case Cons(NodeOp(n), rest) =>
      var clone := Clone(n, scope, st).value;
      ProgramFaults(py, sem, rest, inputs, env, BindOutputs(n, clone, scope), Emit(clone, st), RunNode(sem, n, rho),
                    defined + OutputNames(n), ids);
    case Cons(RegionOp(r), rest) =>
      RegionFaults(py, sem, r, inputs, env, scope, st, rho, defined, ids);
      var st1, results := ExpandRegion(py, r, inputs, env, scope, st), RunRegion(py, sem, r, inputs, rho);
      if st1.Ok? {
        ProgramFaults(py, sem, rest, inputs, env, scope, st1.value, rho + Named(r, results.value),
                      defined + ResultNames(r), ids);
      }
  }

  lemma {:induction false} RegionFaults<V>(py: Operators, sem: Semantics<V>, r: Region, inputs: map<string, PyVal>,
                                           env: map<string, PyVal>,
                                           scope: Scope, st: State, rho: Store<V>, defined: set<IoName>,
                                           ids: set<string>)
    requires RegionScoped(r, defined, ids) && env.Keys <= ids
    ensures Fault(ExpandRegion(py, r, inputs, env, scope, st)) == Fault(RunRegion(py, sem, r, inputs, rho))
    decreases r, 0
  {
    match r
    case Loop(id, trip, carryInit, _, body) =>
      SameValue(py, trip, inputs, env, ids);
      var count := TripCount(py, id, trip, inputs);
      if count.Ok? {
        LoopFaults(py, sem, r, inputs, env, scope, ResolveAll(carryInit, scope, st.subst), 0, count.value, st, rho,
                   ReadAll(sem, carryInit, rho), defined, ids);
      }
    case Cond(_, predicate_, _, then_, else_) =>
      SameValue(py, predicate_, inputs, env, ids);
      var v := Eval(py, predicate_, inputs);
      if v.Ok? && Truthy(v.value) {
        ProgramFaults(py, sem, then_.body, inputs, env, scope, st, rho, defined, ids);
      } else if v.Ok? && else_.Some? {
        ProgramFaults(py, sem, else_.value.body, inputs, env, scope, st, rho, defined, ids);
      }
  }

  lemma {:induction false} LoopFaults<V>(py: Operators, sem: Semantics<V>, r: Region, inputs: map<string, PyVal>,
                                         env: map<string, PyVal>, scope: Scope,
                                         current: map<string, NodeIO>, i: nat, count: nat, st: State,
                                         rho: Store<V>, values: map<string, V>, defined: set<IoName>, ids: set<string>)
    requires r.Loop? && i <= count && RegionScoped(r, defined, ids) && env.Keys <= ids
    ensures Fault(ExpandLoop(py, r, inputs, env, scope, current, i, count, st))
              == Fault(RunLoop(py, sem, r, inputs, rho, values, i, count))
    decreases r.body, 1, count - i
  {
    if i < count {
      var body, rho1 := ExpandIteration(py, r, inputs, env, scope, current, i, st),
          RunProgram(py, sem, r.body, inputs, IterationStore(sem, r, i, values, rho));
      ProgramFaults(py, sem, r.body, inputs, env[r.id := PyInt(i)], IterationScope(r, i, current, scope),
                    Inject(r, i, st),
                    IterationStore(sem, r, i, values, rho), LoopDefined(r, defined), ids);
      ExpandStepFault(py, r, inputs, env, scope, current, i, count, st);
      RunStepFault(py, sem, r, inputs, rho, values, i, count);
      if body.Ok? {
        LoopFaults(py, sem, r, inputs, env, scope, ResolveAll(r.carryOut, body.value.0, body.value.1.subst), i + 1,
                   count, body.value.1,
                   rho, ReadAll(sem, r.carryOut, rho1.value), defined, ids);
      }
    }
  }

  lemma ExpandStepFault(py: Operators, r: Region, inputs: map<string, PyVal>, env: map<string, PyVal>, scope: Scope,
                        current: map<string, NodeIO>, i: nat, count: nat, st: State)
    requires r.Loop? && i < count
    ensures var body := ExpandIteration(py, r, inputs, env, scope, current, i, st);
            Fault(ExpandLoop(py, r, inputs, env, scope, current, i, count, st))
            == if body.Err? then Fault(body)
               else Fault(ExpandLoop(py, r, inputs, env, scope,
                                     ResolveAll(r.carryOut, body.value.0, body.value.1.subst), i + 1, count,
                                     body.value.1))
  {
  }

  lemma RunStepFault<V>(py: Operators, sem: Semantics<V>, r: Region, inputs: map<string, PyVal>, rho: Store<V>,
                        values: map<string, V>, i: nat, count: nat)
    requires r.Loop? && i < count
    ensures var body := RunProgram(py, sem, r.body, inputs, IterationStore(sem, r, i, values, rho));
            Fault(RunLoop(py, sem, r, inputs, rho, values, i, count))
            == if body.Err? then Fault(body)
               else Fault(RunLoop(py, sem, r, inputs, rho, ReadAll(sem, r.carryOut, body.value), i + 1, count))
  {
  }

  lemma {:induction false} ItemsFault<V>(py: Operators, sem: Semantics<V>, items: seq<Item>, inputs: map<string, PyVal>,
                                         st: State, rho: Store<V>, defined: set<IoName>, ids: set<string>)
    requires ItemsScoped(items, defined, ids)
    ensures Fault(ExpandRegions(py, RegionsOf(items), inputs, st)) == Fault(RunItems(py, sem, items, inputs, rho))
    decreases |items|
  {
    if items == [] {
    } else if items[0].Plain? {
      assert RegionsOf(items) == RegionsOf(items[1..]);
      ItemsFault(py, sem, items[1..], inputs, st, RunNode(sem, items[0].node, rho),
                 defined + OutputNames(items[0].node), ids);
    } else {
      var r := items[0].region;
      assert RegionsOf(items)[1..] == RegionsOf(items[1..]);
      RegionFaults(py, sem, r, inputs, map[], map[], st, rho, defined, ids);
      var st1, results := ExpandRegion(py, r, inputs, map[], map[], st), RunRegion(py, sem, r, inputs, rho);
      if st1.Ok? {
        ItemsFault(py, sem, items[1..], inputs, st1.value, rho + Named(r, results.value), defined + ResultNames(r),
                   ids);
      }
    }
  }

  /** A request is refused while expanding exactly when running the workflow directly fails, with the same error. */
  lemma ExpansionFailsWithTheRun<V>(py: Operators, sem: Semantics<V>, w: Workflow, items: seq<Item>,
                                    inputs: map<string, PyVal>, fresh_: nat)
    requires WellScoped(w, items, inputs)
    ensures Fault(Expand(py, w, inputs, fresh_)) == Fault(Run(py, sem, items, inputs))
  {
    ItemsFault(py, sem, items, inputs, Start(w, fresh_), InputStore(sem, inputs), RequestNames(inputs),
               IdsOfItems(items));
  }
}
