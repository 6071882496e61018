/** The expander simulates the direct interpreter, by induction on programs and iteration numbers. */
module Simulation {
  import opened Wrappers
  import opened Expressions
  import opened Workflows
  import opened Expansion
  import opened Interpreter
  import opened FlatGraphs

  /** The flat name that stands for `x` at this point of the expansion. */
  function Target(x: IoName, scope: Scope, subst: map<IoName, NodeIO>): IoName {
    if x in scope then scope[x].name else if x in subst then subst[x].name else x
  }

  /** Each name of the store stands for a flat value equal to the stored one. */
  ghost predicate Agree<V>(rho: Store<V>, scope: Scope, subst: map<IoName, NodeIO>, val: Store<V>) {
    forall x | x in rho :: Target(x, scope, subst) in val && val[Target(x, scope, subst)] == rho[x]
  }

  /** The two tables do not overlap, and hold well-formed flat references. */
  ghost predicate Tidy(scope: Scope, subst: map<IoName, NodeIO>) {
    && (forall x | x in scope :: !x.ResultOf? && Flat(scope[x]))
    && (forall x | x in subst :: x.ResultOf? && Flat(subst[x]))
  }

  ghost predicate Flat(io: NodeIO) {
    Real(io.name) && SourceFits(io)
  }

  ghost predicate FlatInputs(n: Node) {
    forall k | k in n.inputs && n.inputs[k].Some? :: Flat(n.inputs[k].value)
  }

  /** Values so far: real names only, and no minted name yet to come. */
  ghost predicate Fresh<V>(val: Store<V>, fresh_: nat) {
    forall x | x in val :: Real(x) && (x.Output? && x.node.Minted? ==> x.node.uid < fresh_)
  }

  /** Injected loop counters have their values. */
  ghost predicate Counters<V>(sem: Semantics<V>, injected: map<IoName, int>, val: Store<V>) {
    forall x | x in injected :: x in val && val[x] == sem.ofInt(injected[x])
  }

  ghost predicate Steps(injected: map<IoName, int>) {
    forall x | x in injected :: x.Step? && injected[x] == x.iteration
  }

  /** None of the names in the store is a result of a region in `ids`. */
  ghost predicate Before<V>(rho: Store<V>, ids: set<string>) {
    forall x | x in rho :: x.ResultOf? ==> x.region !in ids
  }

  /** From `st` to `st'` nodes were only appended, and only results of regions in `ids` were rebound. */
  ghost predicate Grows(st: State, st': State, ids: set<string>) {
    && st.emitted <= st'.emitted && st.fresh_ <= st'.fresh_
    && (Steps(st.injected) ==> Steps(st'.injected) && forall x | x in st.injected :: x in st'.injected)
    && forall x: IoName | !(x.ResultOf? && x.region in ids) ::
         (x in st.subst <==> x in st'.subst) && (x in st.subst ==> st.subst[x] == st'.subst[x])
  }

  lemma GrowsTrans(a: State, b: State, c: State, ids: set<string>, ids': set<string>, all: set<string>)
    requires Grows(a, b, ids) && Grows(b, c, ids') && ids <= all && ids' <= all
    ensures Grows(a, c, all)
  {
  }

  lemma {:induction false} ProgramGrows(py: Operators, p: Program, inputs: map<string, PyVal>, env: map<string, PyVal>,
                                        scope: Scope, st: State)
    requires ExpandProgram(py, p, inputs, env, scope, st).Ok?
    ensures Grows(st, ExpandProgram(py, p, inputs, env, scope, st).value.1, IdsOf(p))
    decreases p, 0
  {
    match p
    case Nil =>
    case Cons(NodeOp(n), rest) =>
      var clone := Clone(n, scope, st).value;
      ProgramGrows(py, rest, inputs, env, BindOutputs(n, clone, scope), Emit(clone, st));
    case Cons(RegionOp(r), rest) =>
      var st1 := ExpandRegion(py, r, inputs, env, scope, st).value;
      RegionGrows(py, r, inputs, env, scope, st);
      ProgramGrows(py, rest, inputs, env, scope, st1);
      GrowsTrans(st, st1, ExpandProgram(py, p, inputs, env, scope, st).value.1, IdsOfRegion(r), IdsOf(rest), IdsOf(p));
  }

  lemma {:induction false} RegionGrows(py: Operators, r: Region, inputs: map<string, PyVal>, env: map<string, PyVal>,
                                       scope: Scope, st: State)
    requires ExpandRegion(py, r, inputs, env, scope, st).Ok?
    ensures Grows(st, ExpandRegion(py, r, inputs, env, scope, st).value, IdsOfRegion(r))
    decreases r, 0
  {
    hide ExpandLoop, ExpandProgram, ExpandBranch, ResolveAll, Grows, BindResults, Eval, TripCount, IdsOf;
    match r
    case Loop(id, trip, carryInit, _, body) =>
      var count := TripCount(py, id, trip, inputs + env).value;
      var current := ResolveAll(carryInit, scope, st.subst);
      LoopGrows(py, r, inputs, env, scope, current, 0, count, st);
      var (last, st') := ExpandLoop(py, r, inputs, env, scope, current, 0, count, st).value;
      BindGrows(r, last, st, st', IdsOf(body), IdsOfRegion(r));
    case Cond(_, predicate_, _, then_, else_) =>
      var v := Eval(py, predicate_, inputs + env).value;
      if Truthy(v) {
        BranchGrows(py, r, then_, inputs, env, scope, st, IdsOfRegion(r));
      } else if else_.Some? {
        BranchGrows(py, r, else_.value, inputs, env, scope, st, IdsOfRegion(r));
      } else {
        NothingGrows(st, IdsOfRegion(r));
      }
  }

  lemma {:induction false} BranchGrows(py: Operators, r: Region, b: Branch, inputs: map<string, PyVal>,
                                       env: map<string, PyVal>,
                                       scope: Scope, st: State, ids: set<string>)
    requires ExpandBranch(py, r, b, inputs, env, scope, st).Ok? && IdsOf(b.body) <= ids && r.id in ids
    ensures Grows(st, ExpandBranch(py, r, b, inputs, env, scope, st).value, ids)
    decreases b, 0
  {
    hide ExpandProgram, ResolveAll, Grows, BindResults;
    ProgramGrows(py, b.body, inputs, env, scope, st);
    var (scope', st') := ExpandProgram(py, b.body, inputs, env, scope, st).value;
    BindGrows(r, ResolveAll(b.results, scope', st'.subst), st, st', IdsOf(b.body), ids);
  }

  lemma NothingGrows(st: State, ids: set<string>)
    ensures Grows(st, st, ids)
  {
  }

  lemma BindGrows(r: Region, current: map<string, NodeIO>, st: State, st': State, inner: set<string>, ids: set<string>)
    requires Grows(st, st', inner) && inner <= ids && r.id in ids
    ensures Grows(st, BindResults(r, current, st'), ids)
  {
  }

  lemma {:induction false} LoopGrows(py: Operators, r: Region, inputs: map<string, PyVal>, env: map<string, PyVal>,
                                     scope: Scope,
                                     current: map<string, NodeIO>, i: nat, count: nat, st: State)
    requires r.Loop? && i <= count
    requires ExpandLoop(py, r, inputs, env, scope, current, i, count, st).Ok?
    ensures Grows(st, ExpandLoop(py, r, inputs, env, scope, current, i, count, st).value.1, IdsOf(r.body))
    decreases r.body, 1, count - i
  {
    if i < count {
      hide ExpandLoop, ExpandProgram, ExpandIteration, ResolveAll, Grows;
      LoopStepUnfolds(py, r, inputs, env, scope, current, i, count, st);
      IterationGrows(py, r, inputs, env, scope, current, i, st);
      var (scope1, st1) := ExpandIteration(py, r, inputs, env, scope, current, i, st).value;
      var current1 := ResolveAll(r.carryOut, scope1, st1.subst);
      LoopGrows(py, r, inputs, env, scope, current1, i + 1, count, st1);
      GrowsTrans(st, st1, ExpandLoop(py, r, inputs, env, scope, current1, i + 1, count, st1).value.1, IdsOf(r.body),
                 IdsOf(r.body), IdsOf(r.body));
    }
  }

  lemma {:induction false} IterationGrows(py: Operators, r: Region, inputs: map<string, PyVal>, env: map<string, PyVal>,
                                          scope: Scope,
                                          current: map<string, NodeIO>, i: nat, st: State)
    requires r.Loop? && ExpandIteration(py, r, inputs, env, scope, current, i, st).Ok?
    ensures Grows(st, ExpandIteration(py, r, inputs, env, scope, current, i, st).value.1, IdsOf(r.body))
    decreases r.body, 1, 0
  {
    hide ExpandProgram, Grows, Inject, IterationScope, IdsOf;
    ProgramGrows(py, r.body, inputs, env[r.id := PyInt(i)], IterationScope(r, i, current, scope), Inject(r, i, st));
    InjectGrows(r, i, st);
    GrowsTrans(st, Inject(r, i, st), ExpandIteration(py, r, inputs, env, scope, current, i, st).value.1, {},
               IdsOf(r.body), IdsOf(r.body));
  }

  lemma InjectGrows(r: Region, i: nat, st: State)
    ensures Grows(st, Inject(r, i, st), {})
  {
  }

  /** A node as the expander emits it: freshly named, with flat inputs and the declared outputs. */
  ghost predicate Cloned(n: Node, uid: nat) {
    n.name == Minted(n.op, uid) && FlatInputs(n) && n.declared == n.outputs
  }

  /** The nodes appended from `st` to `st'` are clones, in an order in which they can run from `val` to `val'`. */
  ghost predicate Emits<V>(sem: Semantics<V>, st: State, st': State, val: Store<V>, val': Store<V>) {
    && st.emitted <= st'.emitted
    && st'.fresh_ - st.fresh_ == |st'.emitted| - |st.emitted|
    && (forall i | |st.emitted| <= i < |st'.emitted| :: Cloned(st'.emitted[i], st.fresh_ + i - |st.emitted|))
    && Ordered(st'.emitted[|st.emitted|..], val.Keys)
    && val' == RunNodes(sem, st'.emitted[|st.emitted|..], val)
  }

  lemma EmitsNothing<V>(sem: Semantics<V>, st: State, st': State, val: Store<V>)
    requires st'.emitted == st.emitted && st'.fresh_ == st.fresh_
    ensures Emits(sem, st, st', val, val)
  {
    assert st'.emitted[|st.emitted|..] == [];
  }

  lemma EmitsOne<V>(sem: Semantics<V>, n: Node, st: State, val: Store<V>)
    requires Cloned(n, st.fresh_) && NodeReadsIn(n, val.Keys) && OutputNames(n) !! val.Keys
    ensures Emits(sem, st, Emit(n, st), val, RunNode(sem, n, val))
  {
    var new_ := Emit(n, st).emitted[|st.emitted|..];
    assert new_ == [n];
    assert new_[1..] == [];
  }

  lemma EmitsTrans<V>(sem: Semantics<V>, a: State, b: State, c: State, v0: Store<V>, v1: Store<V>, v2: Store<V>)
    requires Emits(sem, a, b, v0, v1) && Emits(sem, b, c, v1, v2)
    ensures Emits(sem, a, c, v0, v2)
  {
    hide Cloned, Ordered, RunNodes;
    var n1, n2 := b.emitted[|a.emitted|..], c.emitted[|b.emitted|..];
    OrderedAppend(sem, n1, n2, v0);
    assert c.emitted[|a.emitted|..] == n1 + n2;
    forall i | |a.emitted| <= i < |b.emitted| ensures Cloned(c.emitted[i], a.fresh_ + i - |a.emitted|) {
      assert c.emitted[i] == b.emitted[i];
    }
  }

  lemma EmitsExtends<V>(sem: Semantics<V>, st: State, st': State, val: Store<V>, val': Store<V>)
    requires Emits(sem, st, st', val, val')
    ensures forall x | x in val :: x in val' && val'[x] == val[x]
  {
    RunNodesExtends(sem, st'.emitted[|st.emitted|..], val);
  }

  /** Flat inputs of the clone mean what the inputs of the original mean. */
  lemma ArgumentsResolved<V>(sem: Semantics<V>, n: Node, rho: Store<V>, scope: Scope, st: State, val: Store<V>)
    requires NodeScoped(n, rho.Keys) && Agree(rho, scope, st.subst, val)
    ensures Arguments(sem, n.inputs, rho) == Arguments(sem, ResolveInputs(n.inputs, scope, st.subst), val)
  {
    forall k | k in n.inputs && n.inputs[k].Some?
      ensures Read(sem, rho, n.inputs[k].value.name) == Read(sem, val, Resolve(n.inputs[k].value, scope, st.subst).name)
    {
      var io := n.inputs[k].value;
      assert Resolve(io, scope, st.subst).name == Target(io.name, scope, st.subst);
    }
  }

  lemma ResolveIsFlat<V>(io: NodeIO, rho: Store<V>, scope: Scope, subst: map<IoName, NodeIO>, val: Store<V>,
                         fresh_: nat)
    requires ReadsIn(io, rho.Keys) && Agree(rho, scope, subst, val) && Tidy(scope, subst) && Fresh(val, fresh_)
    ensures Flat(Resolve(io, scope, subst)) && Resolve(io, scope, subst).name == Target(io.name, scope, subst)
    ensures Resolve(io, scope, subst).name in val && val[Resolve(io, scope, subst).name] == rho[io.name]
  {
    assert Target(io.name, scope, subst) in val;
  }

  lemma CloneIsClean<V>(n: Node, rho: Store<V>, scope: Scope, st: State, val: Store<V>)
    requires NodeScoped(n, rho.Keys) && n.declared == n.outputs
    requires Agree(rho, scope, st.subst, val) && Tidy(scope, st.subst) && Fresh(val, st.fresh_)
    ensures Clone(n, scope, st).Ok?
    ensures Cloned(Clone(n, scope, st).value, st.fresh_) && NodeReadsIn(Clone(n, scope, st).value, val.Keys)
  {
    forall k | k in n.inputs && n.inputs[k].Some?
      ensures Flat(Resolve(n.inputs[k].value, scope, st.subst))
                && Resolve(n.inputs[k].value, scope, st.subst).name in val
    {
      ResolveIsFlat(n.inputs[k].value, rho, scope, st.subst, val, st.fresh_);
    }
  }

  /** The outputs of a node and of its clone agree, and nothing else changes. */
  lemma BindingAgrees<V>(sem: Semantics<V>, n: Node, clone: Node, rho: Store<V>, scope: Scope,
                         subst: map<IoName, NodeIO>, val: Store<V>)
    requires Agree(rho, scope, subst, val) && OutputNames(clone) !! val.Keys
    requires clone.op == n.op && clone.mode == n.mode && clone.outputs == n.outputs
    requires Arguments(sem, n.inputs, rho) == Arguments(sem, clone.inputs, val)
    ensures Agree(RunNode(sem, n, rho), BindOutputs(n, clone, scope), subst, RunNode(sem, clone, val))
  {
    forall x | x in RunNode(sem, n, rho)
      ensures Target(x, BindOutputs(n, clone, scope), subst) in RunNode(sem, clone, val)
      ensures RunNode(sem, clone, val)[Target(x, BindOutputs(n, clone, scope), subst)] == RunNode(sem, n, rho)[x]
    {
      if x in OutputNames(n) {
        OutputBound(sem, n, clone, rho, scope, subst, val, x);
      } else {
        OthersKept(sem, n, clone, rho, scope, subst, val, x);
      }
    }
  }

  lemma OutputBound<V>(sem: Semantics<V>, n: Node, clone: Node, rho: Store<V>, scope: Scope, subst: map<IoName, NodeIO>,
                       val: Store<V>, x: IoName)
    requires x in OutputNames(n) && clone.op == n.op && clone.mode == n.mode && clone.outputs == n.outputs
    requires Arguments(sem, n.inputs, rho) == Arguments(sem, clone.inputs, val)
    ensures var target := Target(x, BindOutputs(n, clone, scope), subst);
            target in RunNode(sem, clone, val) && x in RunNode(sem, n, rho)
              && RunNode(sem, clone, val)[target] == RunNode(sem, n, rho)[x]
  {
    assert Target(x, BindOutputs(n, clone, scope), subst) == Output(clone.name, x.key);
  }

  lemma OthersKept<V>(sem: Semantics<V>, n: Node, clone: Node, rho: Store<V>, scope: Scope, subst: map<IoName, NodeIO>,
                      val: Store<V>, x: IoName)
    requires x in rho && x !in OutputNames(n) && OutputNames(clone) !! val.Keys
    requires Target(x, scope, subst) in val && val[Target(x, scope, subst)] == rho[x]
    ensures var target := Target(x, BindOutputs(n, clone, scope), subst);
            target in RunNode(sem, clone, val) && x in RunNode(sem, n, rho)
              && RunNode(sem, clone, val)[target] == RunNode(sem, n, rho)[x]
  {
    assert Target(x, BindOutputs(n, clone, scope), subst) == Target(x, scope, subst);
  }

  lemma CloneIsFresh<V>(sem: Semantics<V>, clone: Node, val: Store<V>, fresh_: nat)
    requires Fresh(val, fresh_) && clone.name == Minted(clone.op, fresh_)
    ensures OutputNames(clone) !! val.Keys
    ensures Fresh(RunNode(sem, clone, val), fresh_ + 1)
  {
  }

  lemma BindTidy(n: Node, clone: Node, scope: Scope, subst: map<IoName, NodeIO>)
    requires Tidy(scope, subst)
    ensures Tidy(BindOutputs(n, clone, scope), subst)
  {
  }

  /** One body node: its clone computes the same outputs under a fresh name. */
  lemma SimNode<V>(sem: Semantics<V>, n: Node, rho: Store<V>, scope: Scope, st: State, val: Store<V>)
    requires NodeScoped(n, rho.Keys) && n.declared == n.outputs
    requires Agree(rho, scope, st.subst, val) && Tidy(scope, st.subst) && Fresh(val, st.fresh_)
    ensures Clone(n, scope, st).Ok?
    ensures var clone := Clone(n, scope, st).value;
            var val' := RunNode(sem, clone, val);
            && Agree(RunNode(sem, n, rho), BindOutputs(n, clone, scope), st.subst, val')
            && Tidy(BindOutputs(n, clone, scope), st.subst)
            && Fresh(val', st.fresh_ + 1)
            && Emits(sem, st, Emit(clone, st), val, val')
  {
    var clone := Clone(n, scope, st).value;
    CloneIsClean(n, rho, scope, st, val);
    CloneIsFresh(sem, clone, val, st.fresh_);
    BindTidy(n, clone, scope, st.subst);
    ArgumentsResolved(sem, n, rho, scope, st, val);
    BindingAgrees(sem, n, clone, rho, scope, st.subst, val);
    EmitsOne(sem, clone, st, val);
  }

  lemma SameValue(py: Operators, e: Expr, inputs: map<string, PyVal>, env: map<string, PyVal>, ids: set<string>)
    requires FreeInputs(e) !! ids && env.Keys <= ids
    ensures Eval(py, e, inputs + env) == Eval(py, e, inputs)
  {
    EvalDependsOnFreeInputs(py, e, inputs + env, inputs);
  }

  /** Old names keep standing for equal values when only results of later regions are rebound. */
  lemma AgreeGrows<V>(rho: Store<V>, scope: Scope, st: State, st': State, val: Store<V>, val': Store<V>,
                      ids: set<string>)
    requires Agree(rho, scope, st.subst, val) && Grows(st, st', ids) && Before(rho, ids)
    requires forall x | x in val :: x in val' && val'[x] == val[x]
    ensures Agree(rho, scope, st'.subst, val')
  {
    forall x | x in rho
      ensures Target(x, scope, st'.subst) in val' && val'[Target(x, scope, st'.subst)] == rho[x]
    {
      assert Target(x, scope, st'.subst) == Target(x, scope, st.subst);
    }
  }

  lemma StepsGrow(st: State, st': State, ids: set<string>)
    requires Steps(st.injected) && Grows(st, st', ids)
    ensures Steps(st'.injected)
  {
  }

  lemma CountersGrow<V>(sem: Semantics<V>, st: State, st': State, val: Store<V>, ids: set<string>)
    requires Steps(st.injected) && Grows(st, st', ids) && Counters(sem, st'.injected, val)
    ensures Counters(sem, st.injected, val) && Steps(st'.injected)
  {
  }

  /** A map of references resolves to references with equal values. */
  ghost predicate CarryAgrees<V>(current: map<string, NodeIO>, values: map<string, V>, val: Store<V>) {
    && current.Keys == values.Keys
    && forall k | k in current :: Flat(current[k]) && current[k].name in val && val[current[k].name] == values[k]
  }

  lemma ResolveAllAgrees<V>(sem: Semantics<V>, ios: map<string, NodeIO>, rho: Store<V>, scope: Scope,
                            subst: map<IoName, NodeIO>, val: Store<V>, fresh_: nat)
    requires MapReadsIn(ios, rho.Keys) && Agree(rho, scope, subst, val) && Tidy(scope, subst) && Fresh(val, fresh_)
    ensures CarryAgrees(ResolveAll(ios, scope, subst), ReadAll(sem, ios, rho), val)
  {
    forall k | k in ios
      ensures Flat(Resolve(ios[k], scope, subst)) && Resolve(ios[k], scope, subst).name in val
              && val[Resolve(ios[k], scope, subst).name] == Read(sem, rho, ios[k].name)
    {
      ResolveIsFlat(ios[k], rho, scope, subst, val, fresh_);
    }
  }

  /** Publishing a region's results: the store gains them and the table points at equal values. */
  lemma ResultsAgree<V>(r: Region, current: map<string, NodeIO>, values: map<string, V>, rho: Store<V>, scope: Scope,
                        st: State, val: Store<V>)
    requires Agree(rho, scope, st.subst, val) && Tidy(scope, st.subst) && CarryAgrees(current, values, val)
    ensures Agree(rho + Named(r, values), scope, BindResults(r, current, st).subst, val)
    ensures Tidy(scope, BindResults(r, current, st).subst)
  {
    var rho', subst' := rho + Named(r, values), BindResults(r, current, st).subst;
    forall x | x in rho'
      ensures Target(x, scope, subst') in val && val[Target(x, scope, subst')] == rho'[x]
    {
      if x in Named(r, values) {
        assert Target(x, scope, subst') == current[x.key].name;
      } else {
        assert Target(x, scope, subst') == Target(x, scope, st.subst);
      }
    }
  }

  /** The top of an iteration: counter and carry stand for their values. */
  lemma IterationAgrees<V>(sem: Semantics<V>, r: Region, i: nat, current: map<string, NodeIO>, values: map<string, V>,
                           rho: Store<V>, scope: Scope, subst: map<IoName, NodeIO>, val: Store<V>)
    requires Agree(rho, scope, subst, val) && CarryAgrees(current, values, val)
    requires Step(r.id, i) in val && val[Step(r.id, i)] == sem.ofInt(i)
    ensures Agree(IterationStore(sem, r, i, values, rho), IterationScope(r, i, current, scope), subst, val)
  {
    var rho', scope' := IterationStore(sem, r, i, values, rho), IterationScope(r, i, current, scope);
    forall x | x in rho'
      ensures Target(x, scope', subst) in val && val[Target(x, scope', subst)] == rho'[x]
    {
      if x.Carry? && x.region == r.id && x.key in values {
        assert Target(x, scope', subst) == current[x.key].name;
      } else if x == InductionVar(r.id) {
        assert Target(x, scope', subst) == Step(r.id, i);
      } else {
        assert x in rho && (x in scope' <==> x in scope);
      }
    }
  }

  lemma IterationTidy<V>(r: Region, i: nat, current: map<string, NodeIO>, values: map<string, V>, scope: Scope,
                         subst: map<IoName, NodeIO>, val: Store<V>)
    requires Tidy(scope, subst) && CarryAgrees(current, values, val)
    ensures Tidy(IterationScope(r, i, current, scope), subst)
  {
  }

  lemma NamedKeys<V>(r: Region, results: map<string, V>, rho: Store<V>)
    requires results.Keys == ResultKeys(r)
    ensures (rho + Named(r, results)).Keys == rho.Keys + ResultNames(r)
    ensures forall x | x in rho + Named(r, results) :: x in rho || (x.ResultOf? && x.region == r.id)
  {
  }

  /** What holds before a piece of program is expanded. */
  ghost predicate Ready<V>(rho: Store<V>, scope: Scope, st: State, val: Store<V>, ids: set<string>) {
    && Agree(rho, scope, st.subst, val) && Tidy(scope, st.subst) && Fresh(val, st.fresh_)
    && Before(rho, ids) && Steps(st.injected)
  }

  /**
   * The expansion of a body emits clones whose evaluation extends `val` to `val'`, in which every
   * name of the interpreter's final store stands for its value.
   */
  lemma {:induction false} SimProgram<V>(py: Operators, sem: Semantics<V>, p: Program, inputs: map<string, PyVal>,
                                         env: map<string, PyVal>,
                                         rho: Store<V>, scope: Scope, st: State, val: Store<V>, ids: set<string>)
    returns (rho': Store<V>, val': Store<V>)
    requires Scoped(p, rho.Keys, ids) && env.Keys <= ids && Ready(rho, scope, st, val, IdsOf(p))
    requires ExpandProgram(py, p, inputs, env, scope, st).Ok?
    requires Counters(sem, ExpandProgram(py, p, inputs, env, scope, st).value.1.injected, val)
    ensures RunProgram(py, sem, p, inputs, rho) == Ok(rho') && rho'.Keys == Defined(p, rho.Keys)
    ensures var (scope', st') := ExpandProgram(py, p, inputs, env, scope, st).value;
            && Emits(sem, st, st', val, val')
            && Agree(rho', scope', st'.subst, val') && Tidy(scope', st'.subst) && Fresh(val', st'.fresh_)
    decreases p, 0
  {
    hide Agree, Tidy, Fresh, Emits, Grows, Clone, BindOutputs, RegionScoped, NodeScoped, ExpandRegion, RunRegion, Steps;
    match p
    case Nil =>
      rho', val' := rho, val;
      EmitsNothing(sem, st, st, val);
    case Cons(NodeOp(n), rest) =>
      SimNode(sem, n, rho, scope, st, val);
      var clone := Clone(n, scope, st).value;
      var val1, st1 := RunNode(sem, clone, val), Emit(clone, st);
      EmitsExtends(sem, st, st1, val, val1);
      rho', val' := SimProgram(py, sem, rest, inputs, env, RunNode(sem, n, rho), BindOutputs(n, clone, scope), st1,
                               val1, ids);
      EmitsTrans(sem, st, st1, ExpandProgram(py, p, inputs, env, scope, st).value.1, val, val1, val');
    case Cons(RegionOp(r), rest) =>
      var st1 := ExpandRegion(py, r, inputs, env, scope, st).value;
      RegionGrows(py, r, inputs, env, scope, st);
      ProgramGrows(py, rest, inputs, env, scope, st1);
      var st' := ExpandProgram(py, p, inputs, env, scope, st).value.1;
      StepsGrow(st, st1, IdsOfRegion(r));
      CountersGrow(sem, st1, st', val, IdsOf(rest));
      var results, val1 := SimRegion(py, sem, r, inputs, env, rho, scope, st, val, ids);
      EmitsExtends(sem, st, st1, val, val1);
      NamedKeys(r, results, rho);
      assert Before(rho + Named(r, results), IdsOf(rest));
      rho', val' := SimProgram(py, sem, rest, inputs, env, rho + Named(r, results), scope, st1, val1, ids);
      EmitsTrans(sem, st, st1, st', val, val1, val');
  }

  /** A region: afterwards its result names stand for the values the interpreter gives them. */
  lemma {:induction false} SimRegion<V>(py: Operators, sem: Semantics<V>, r: Region, inputs: map<string, PyVal>,
                                        env: map<string, PyVal>,
                                        rho: Store<V>, scope: Scope, st: State, val: Store<V>, ids: set<string>)
    returns (results: map<string, V>, val': Store<V>)
    requires RegionScoped(r, rho.Keys, ids) && env.Keys <= ids && Ready(rho, scope, st, val, IdsOfRegion(r))
    requires ExpandRegion(py, r, inputs, env, scope, st).Ok?
    requires Counters(sem, ExpandRegion(py, r, inputs, env, scope, st).value.injected, val)
    ensures RunRegion(py, sem, r, inputs, rho) == Ok(results) && results.Keys == ResultKeys(r)
    ensures var st' := ExpandRegion(py, r, inputs, env, scope, st).value;
            && Emits(sem, st, st', val, val')
            && Agree(rho + Named(r, results), scope, st'.subst, val') && Tidy(scope, st'.subst)
              && Fresh(val', st'.fresh_)
    decreases r, 0
  {
    match r
    case Loop(_, _, _, _, _) =>
      results, val' := SimLoopRegion(py, sem, r, inputs, env, rho, scope, st, val, ids);
    case Cond(id, predicate_, keys, then_, else_) =>
      SameValue(py, predicate_, inputs, env, ids);
      var v := Eval(py, predicate_, inputs + env).value;
      if Truthy(v) {
        results, val' := SimBranch(py, sem, r, then_, inputs, env, rho, scope, st, val, ids);
      } else if else_.Some? {
        results, val' := SimBranch(py, sem, r, else_.value, inputs, env, rho, scope, st, val, ids);
      } else {
        results, val' := map[], val;
        EmitsNothing(sem, st, st, val);
        assert rho + Named(r, results) == rho;
      }
  }

  /** A loop, zero iterations included: its results stand for the final carry. */
  lemma {:induction false} SimLoopRegion<V>(py: Operators, sem: Semantics<V>, r: Region, inputs: map<string, PyVal>,
                                            env: map<string, PyVal>,
                                            rho: Store<V>, scope: Scope, st: State, val: Store<V>, ids: set<string>)
    returns (results: map<string, V>, val': Store<V>)
    requires r.Loop? && RegionScoped(r, rho.Keys, ids) && env.Keys <= ids && Ready(rho, scope, st, val, IdsOfRegion(r))
    requires ExpandRegion(py, r, inputs, env, scope, st).Ok?
    requires Counters(sem, ExpandRegion(py, r, inputs, env, scope, st).value.injected, val)
    ensures RunRegion(py, sem, r, inputs, rho) == Ok(results) && results.Keys == ResultKeys(r)
    ensures var st' := ExpandRegion(py, r, inputs, env, scope, st).value;
            && Emits(sem, st, st', val, val')
            && Agree(rho + Named(r, results), scope, st'.subst, val') && Tidy(scope, st'.subst)
              && Fresh(val', st'.fresh_)
    decreases r.body, 2
  {
    SameValue(py, r.trip, inputs, env, ids);
    var count := TripCount(py, r.id, r.trip, inputs + env).value;
    var current, values := ResolveAll(r.carryInit, scope, st.subst), ReadAll(sem, r.carryInit, rho);
    ResolveAllAgrees(sem, r.carryInit, rho, scope, st.subst, val, st.fresh_);
    LoopUnfolds(py, r, inputs, env, scope, st, count);
    var current', st1 := ExpandLoop(py, r, inputs, env, scope, current, 0, count, st).value.0,
                         ExpandLoop(py, r, inputs, env, scope, current, 0, count, st).value.1;
    assert Ready(rho, scope, st, val, IdsOf(r.body));
    results, val' := SimLoop(py, sem, r, inputs, env, rho, scope, current, values, 0, count, st, val, ids);
    Publish(sem, r, current', results, rho, scope, st, st1, val, val');
  }

  lemma LoopUnfolds(py: Operators, r: Region, inputs: map<string, PyVal>, env: map<string, PyVal>, scope: Scope,
                    st: State, count: nat)
    requires r.Loop? && ExpandRegion(py, r, inputs, env, scope, st).Ok?
    requires TripCount(py, r.id, r.trip, inputs + env) == Ok(count)
    ensures var loop := ExpandLoop(py, r, inputs, env, scope, ResolveAll(r.carryInit, scope, st.subst), 0, count, st);
            loop.Ok? && ExpandRegion(py, r, inputs, env, scope, st).value == BindResults(r, loop.value.0, loop.value.1)
    ensures ResolveAll(r.carryInit, scope, st.subst).Keys == r.carryInit.Keys
  {
  }

  /** Publishing results emits nothing and keeps every agreement. */
  lemma Publish<V>(sem: Semantics<V>, r: Region, current: map<string, NodeIO>, results: map<string, V>, rho: Store<V>,
                   scope: Scope, st: State, st1: State, val: Store<V>, val': Store<V>)
    requires Emits(sem, st, st1, val, val')
    requires Agree(rho, scope, st1.subst, val') && Tidy(scope, st1.subst) && CarryAgrees(current, results, val')
    ensures var st' := BindResults(r, current, st1);
            && Emits(sem, st, st', val, val')
            && Agree(rho + Named(r, results), scope, st'.subst, val') && Tidy(scope, st'.subst)
  {
    EmitsNothing(sem, st1, BindResults(r, current, st1), val');
    EmitsTrans(sem, st, st1, BindResults(r, current, st1), val, val', val');
    ResultsAgree(r, current, results, rho, scope, st1, val');
  }

  /** The branch of a conditional that is taken. */
  lemma {:induction false} SimBranch<V>(py: Operators, sem: Semantics<V>, r: Region, b: Branch,
                                        inputs: map<string, PyVal>, env: map<string, PyVal>,
                                        rho: Store<V>, scope: Scope, st: State, val: Store<V>, ids: set<string>)
    returns (results: map<string, V>, val': Store<V>)
    requires BranchScoped(b, ResultKeys(r), rho.Keys, ids) && env.Keys <= ids
               && Ready(rho, scope, st, val, IdsOf(b.body))
    requires ExpandBranch(py, r, b, inputs, env, scope, st).Ok?
    requires Counters(sem, ExpandBranch(py, r, b, inputs, env, scope, st).value.injected, val)
    ensures RunBranch(py, sem, b, inputs, rho) == Ok(results) && results.Keys == ResultKeys(r)
    ensures var st' := ExpandBranch(py, r, b, inputs, env, scope, st).value;
            && Emits(sem, st, st', val, val')
            && Agree(rho + Named(r, results), scope, st'.subst, val') && Tidy(scope, st'.subst)
              && Fresh(val', st'.fresh_)
    decreases b, 0
  {
    var (scope', st1) := ExpandProgram(py, b.body, inputs, env, scope, st).value;
    var current := ResolveAll(b.results, scope', st1.subst);
    ProgramGrows(py, b.body, inputs, env, scope, st);
    var rho';
    rho', val' := SimProgram(py, sem, b.body, inputs, env, rho, scope, st, val, ids);
    results := ReadAll(sem, b.results, rho');
    ResolveAllAgrees(sem, b.results, rho', scope', st1.subst, val', st1.fresh_);
    EmitsExtends(sem, st, st1, val, val');
    AgreeGrows(rho, scope, st, st1, val, val', IdsOf(b.body));
    Publish(sem, r, current, results, rho, scope, st, st1, val, val');
  }

  /** Iterations `i` up to `count`: the carry keeps standing for the interpreter's carry. */
  lemma {:induction false} SimLoop<V>(py: Operators, sem: Semantics<V>, r: Region, inputs: map<string, PyVal>,
                                      env: map<string, PyVal>,
                                      rho: Store<V>, scope: Scope, current: map<string, NodeIO>, values: map<string, V>,
                                      i: nat, count: nat, st: State, val: Store<V>, ids: set<string>)
    returns (results: map<string, V>, val': Store<V>)
    requires r.Loop? && i <= count && RegionScoped(r, rho.Keys, ids) && env.Keys <= ids
    requires Ready(rho, scope, st, val, IdsOf(r.body))
    requires CarryAgrees(current, values, val) && current.Keys == r.carryInit.Keys
    requires ExpandLoop(py, r, inputs, env, scope, current, i, count, st).Ok?
    requires Counters(sem, ExpandLoop(py, r, inputs, env, scope, current, i, count, st).value.1.injected, val)
    ensures RunLoop(py, sem, r, inputs, rho, values, i, count) == Ok(results) && results.Keys == r.carryInit.Keys
    ensures var (current', st') := ExpandLoop(py, r, inputs, env, scope, current, i, count, st).value;
            && Emits(sem, st, st', val, val')
            && CarryAgrees(current', results, val')
            && Agree(rho, scope, st'.subst, val') && Tidy(scope, st'.subst) && Fresh(val', st'.fresh_)
    decreases r.body, 1, count - i
  {
    hide ExpandProgram, RunProgram, ExpandIteration, ResolveAll, ExpandLoop, RunLoop;
    if i == count {
      LoopEndUnfolds(py, sem, r, inputs, env, scope, rho, current, values, count, st);
      results, val' := values, val;
      EmitsNothing(sem, st, st, val);
    } else {
      LoopStepUnfolds(py, r, inputs, env, scope, current, i, count, st);
      var (scope1, st1) := ExpandIteration(py, r, inputs, env, scope, current, i, st).value;
      var current1 := ResolveAll(r.carryOut, scope1, st1.subst);
      var st' := ExpandLoop(py, r, inputs, env, scope, current1, i + 1, count, st1).value.1;
      LoopGrows(py, r, inputs, env, scope, current1, i + 1, count, st1);
      IterationCounters(py, sem, r, inputs, env, scope, current, i, st, st', val);
      var values1, val1 := SimIteration(py, sem, r, inputs, env, rho, scope, current, values, i, st, val, ids);
      EmitsExtends(sem, st, st1, val, val1);
      assert Counters(sem, st'.injected, val1);
      results, val' := SimLoop(py, sem, r, inputs, env, rho, scope, current1, values1, i + 1, count, st1, val1, ids);
      RunStepUnfolds(py, sem, r, inputs, rho, values, i, count);
      EmitsTrans(sem, st, st1, st', val, val1, val');
    }
  }

  lemma LoopStepUnfolds(py: Operators, r: Region, inputs: map<string, PyVal>, env: map<string, PyVal>, scope: Scope,
                        current: map<string, NodeIO>, i: nat, count: nat, st: State)
    requires r.Loop? && i < count && ExpandLoop(py, r, inputs, env, scope, current, i, count, st).Ok?
    ensures ExpandIteration(py, r, inputs, env, scope, current, i, st).Ok?
    ensures var (scope1, st1) := ExpandIteration(py, r, inputs, env, scope, current, i, st).value;
            ExpandLoop(py, r, inputs, env, scope, current, i, count, st)
            == ExpandLoop(py, r, inputs, env, scope, ResolveAll(r.carryOut, scope1, st1.subst), i + 1, count, st1)
  {
  }

  lemma RunStepUnfolds<V>(py: Operators, sem: Semantics<V>, r: Region, inputs: map<string, PyVal>, rho: Store<V>,
                          values: map<string, V>, i: nat, count: nat)
    requires r.Loop? && i < count
    ensures var body := RunProgram(py, sem, r.body, inputs, IterationStore(sem, r, i, values, rho));
            body.Ok? ==> RunLoop(py, sem, r, inputs, rho, values, i, count)
                         == RunLoop(py, sem, r, inputs, rho, ReadAll(sem, r.carryOut, body.value), i + 1, count)
  {
  }

  lemma LoopEndUnfolds<V>(py: Operators, sem: Semantics<V>, r: Region, inputs: map<string, PyVal>,
                          env: map<string, PyVal>, scope: Scope,
                          rho: Store<V>, current: map<string, NodeIO>, values: map<string, V>, count: nat, st: State)
    requires r.Loop?
    ensures ExpandLoop(py, r, inputs, env, scope, current, count, count, st) == Ok((current, st))
    ensures RunLoop(py, sem, r, inputs, rho, values, count, count) == Ok(values)
  {
  }

  lemma IterationCounters<V>(py: Operators, sem: Semantics<V>, r: Region, inputs: map<string, PyVal>,
                             env: map<string, PyVal>,
                             scope: Scope, current: map<string, NodeIO>, i: nat, st: State, st': State, val: Store<V>)
    requires r.Loop? && Steps(st.injected) && ExpandIteration(py, r, inputs, env, scope, current, i, st).Ok?
    requires Grows(ExpandIteration(py, r, inputs, env, scope, current, i, st).value.1, st', IdsOf(r.body))
    requires Counters(sem, st'.injected, val)
    ensures Counters(sem, ExpandIteration(py, r, inputs, env, scope, current, i, st).value.1.injected, val)
    ensures Step(r.id, i) in val && val[Step(r.id, i)] == sem.ofInt(i)
  {
    hide ExpandProgram, IterationScope;
    var st0 := Inject(r, i, st);
    var st1 := ExpandIteration(py, r, inputs, env, scope, current, i, st).value.1;
    ProgramGrows(py, r.body, inputs, env[r.id := PyInt(i)], IterationScope(r, i, current, scope), st0);
    CountersGrow(sem, st1, st', val, IdsOf(r.body));
    CountersGrow(sem, st0, st1, val, IdsOf(r.body));
    assert Step(r.id, i) in st0.injected && st0.injected[Step(r.id, i)] == i;
  }

  /** One iteration. */
  lemma {:induction false} SimIteration<V>(py: Operators, sem: Semantics<V>, r: Region, inputs: map<string, PyVal>,
                                           env: map<string, PyVal>,
                                           rho: Store<V>, scope: Scope, current: map<string, NodeIO>,
                                           values: map<string, V>,
                                           i: nat, st: State, val: Store<V>, ids: set<string>)
    returns (values1: map<string, V>, val1: Store<V>)
    requires r.Loop? && RegionScoped(r, rho.Keys, ids) && env.Keys <= ids
    requires Ready(rho, scope, st, val, IdsOf(r.body))
    requires CarryAgrees(current, values, val) && current.Keys == r.carryInit.Keys
    requires ExpandIteration(py, r, inputs, env, scope, current, i, st).Ok?
    requires Counters(sem, ExpandIteration(py, r, inputs, env, scope, current, i, st).value.1.injected, val)
    requires Step(r.id, i) in val && val[Step(r.id, i)] == sem.ofInt(i)
    ensures var rho1 := RunProgram(py, sem, r.body, inputs, IterationStore(sem, r, i, values, rho));
            rho1.Ok? && values1 == ReadAll(sem, r.carryOut, rho1.value)
    ensures var (scope1, st1) := ExpandIteration(py, r, inputs, env, scope, current, i, st).value;
            && Emits(sem, st, st1, val, val1) && Ready(rho, scope, st1, val1, IdsOf(r.body))
            && CarryAgrees(ResolveAll(r.carryOut, scope1, st1.subst), values1, val1)
    decreases r.body, 1, 0
  {
    var scope0, st0, env0 := IterationScope(r, i, current, scope), Inject(r, i, st), env[r.id := PyInt(i)];
    var rho0 := IterationStore(sem, r, i, values, rho);
    var scope1, st1 := ExpandProgram(py, r.body, inputs, env0, scope0, st0).value.0,
        ExpandProgram(py, r.body, inputs, env0, scope0, st0).value.1;
    IterationReady(sem, r, i, current, values, rho, scope, st, val);
    var rho1;
    rho1, val1 := SimProgram(py, sem, r.body, inputs, env0, rho0, scope0, st0, val, ids);
    values1 := ReadAll(sem, r.carryOut, rho1);
    ResolveAllAgrees(sem, r.carryOut, rho1, scope1, st1.subst, val1, st1.fresh_);
    ProgramGrows(py, r.body, inputs, env0, scope0, st0);
    IterationDone(sem, r, i, rho, scope, scope1, st, st1, val, val1);
  }

  lemma IterationReady<V>(sem: Semantics<V>, r: Region, i: nat, current: map<string, NodeIO>, values: map<string, V>,
                          rho: Store<V>, scope: Scope, st: State, val: Store<V>)
    requires r.Loop? && Ready(rho, scope, st, val, IdsOf(r.body))
    requires CarryAgrees(current, values, val) && current.Keys == r.carryInit.Keys
    requires Step(r.id, i) in val && val[Step(r.id, i)] == sem.ofInt(i)
    ensures IterationStore(sem, r, i, values, rho).Keys == LoopDefined(r, rho.Keys)
    ensures Ready(IterationStore(sem, r, i, values, rho), IterationScope(r, i, current, scope), Inject(r, i, st), val,
                  IdsOf(r.body))
  {
    hide Agree, Tidy, Fresh, IdsOf, IterationStore, IterationScope, LoopDefined, Flat;
    IterationAgrees(sem, r, i, current, values, rho, scope, st.subst, val);
    IterationTidy(r, i, current, values, scope, st.subst, val);
    IterationKeys(sem, r, i, values, rho);
  }

  lemma IterationKeys<V>(sem: Semantics<V>, r: Region, i: nat, values: map<string, V>, rho: Store<V>)
    requires r.Loop? && values.Keys == r.carryInit.Keys
    ensures IterationStore(sem, r, i, values, rho).Keys == LoopDefined(r, rho.Keys)
    ensures forall x | x in IterationStore(sem, r, i, values, rho) :: x.ResultOf? ==> x in rho
  {
  }

  /** What the body leaves behind, seen from outside the iteration. */
  lemma IterationDone<V>(sem: Semantics<V>, r: Region, i: nat, rho: Store<V>, scope: Scope, scope1: Scope,
                         st: State, st1: State, val: Store<V>, val1: Store<V>)
    requires r.Loop? && Ready(rho, scope, st, val, IdsOf(r.body))
    requires Emits(sem, Inject(r, i, st), st1, val, val1) && Grows(Inject(r, i, st), st1, IdsOf(r.body))
    requires Tidy(scope1, st1.subst) && Fresh(val1, st1.fresh_)
    ensures Emits(sem, st, st1, val, val1) && Ready(rho, scope, st1, val1, IdsOf(r.body))
  {
    EmitsExtends(sem, Inject(r, i, st), st1, val, val1);
    AgreeGrows(rho, scope, st, st1, val, val1, IdsOf(r.body));
  }

  function ExpandIteration(py: Operators, r: Region, inputs: map<string, PyVal>, env: map<string, PyVal>, scope: Scope,
                           current: map<string, NodeIO>, i: nat, st: State): Result<(Scope, State), Error>
    requires r.Loop?
  {
    ExpandProgram(py, r.body, inputs, env[r.id := PyInt(i)], IterationScope(r, i, current, scope), Inject(r, i, st))
  }
}
