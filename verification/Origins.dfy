/** Where values come from: which node, in which turn of its loops, or which request input a name stands for. */
module Origins {
  import opened Wrappers
  import opened Expressions
  import opened Workflows
  import opened Expansion
  import opened Interpreter
  import opened Simulation
  import opened WholeWorkflow

  /**
   * A point of the direct run: the first item, the item after another, or the start of a body inside
   * an item, in a turn of a loop or in the branch taken.
   */
  datatype Place = First | After(before: Place) | Turn(loop: Place, iteration: nat) | Taken(cond: Place)

  datatype Origin =
    | Supplied(input: string)
    | Counter(region: string, iteration: nat)
    | Made(node: NodeName, place: Place, key: string)
    | Nowhere

  // ---------------------------------------------------------------- the direct run, tracing origins

  /** The outputs of a node come from it, whatever its operator computes. */
  function MadeBy(n: Node, at: Place): Semantics<Origin> {
    Semantics((_, _, key, _) => Made(n.name, at, key), _ => Nowhere, _ => Nowhere, Nowhere, Nowhere)
  }

  /** The counter of a loop. */
  function Counting(id: string): Semantics<Origin> {
    Semantics((_, _, _, _) => Nowhere, i => if i < 0 then Nowhere else Counter(id, i), _ => Nowhere, Nowhere, Nowhere)
  }

  function TraceProgram(py: Operators, p: Program, inputs: map<string, PyVal>, rho: Store<Origin>, at: Place)
    : Result<Store<Origin>, Error>
    decreases p, 0
  {
    match p
    case Nil => Ok(rho)
    case Cons(NodeOp(n), rest) => TraceProgram(py, rest, inputs, RunNode(MadeBy(n, at), n, rho), After(at))
    case Cons(RegionOp(r), rest) =>
      var results :- TraceRegion(py, r, inputs, rho, at);
      TraceProgram(py, rest, inputs, rho + Named(r, results), After(at))
  }

  function TraceRegion(py: Operators, r: Region, inputs: map<string, PyVal>, rho: Store<Origin>, at: Place)
    : Result<map<string, Origin>, Error>
    decreases r, 0
  {
    match r
    case Loop(id, trip, carryInit, _, _) =>
      var count :- TripCount(py, id, trip, inputs);
      TraceLoop(py, r, inputs, rho, ReadAll(Counting(id), carryInit, rho), 0, count, at)
    case Cond(_, predicate_, _, then_, else_) =>
      var v :- Eval(py, predicate_, inputs);
      if Truthy(v) then TraceBranch(py, then_, inputs, rho, at)
      else match else_
        case None => Ok(map[])
        case Some(b) => TraceBranch(py, b, inputs, rho, at)
  }

  function TraceBranch(py: Operators, b: Branch, inputs: map<string, PyVal>, rho: Store<Origin>, at: Place)
    : Result<map<string, Origin>, Error>
    decreases b, 0
  {
    var rho' :- TraceProgram(py, b.body, inputs, rho, Taken(at));
    Ok(ReadAll(Counting(""), b.results, rho'))
  }

  function TraceLoop(py: Operators, r: Region, inputs: map<string, PyVal>, rho: Store<Origin>,
                     current: map<string, Origin>, i: nat, count: nat, at: Place): Result<map<string, Origin>, Error>
    requires r.Loop? && i <= count
    decreases r.body, 1, count - i
  {
    if i == count then Ok(current)
    else
      var rho' :- TraceProgram(py, r.body, inputs, IterationStore(Counting(r.id), r, i, current, rho), Turn(at, i));
      TraceLoop(py, r, inputs, rho, ReadAll(Counting(r.id), r.carryOut, rho'), i + 1, count, at)
  }

  function TraceItems(py: Operators, items: seq<Item>, inputs: map<string, PyVal>, rho: Store<Origin>, at: Place)
    : Result<Store<Origin>, Error>
  {
    if items == [] then Ok(rho)
    else
      match items[0]
      case Plain(n) => TraceItems(py, items[1..], inputs, RunNode(MadeBy(n, at), n, rho), After(at))
      case Reg(r) =>
        var results :- TraceRegion(py, r, inputs, rho, at);
        TraceItems(py, items[1..], inputs, rho + Named(r, results), After(at))
  }

  function SuppliedStore(inputs: map<string, PyVal>): Store<Origin> {
    map x | x in inputs :: Request(x) := Supplied(x)
  }

  /** The origin of every name a workflow defines, from the workflow and the request alone. */
  function OriginsOf(py: Operators, items: seq<Item>, inputs: map<string, PyVal>): Result<Store<Origin>, Error> {
    TraceItems(py, items, inputs, SuppliedStore(inputs), First)
  }

  // ---------------------------------------------------------------- places

  function Depth(x: Place): nat {
    match x
    case First => 0
    case After(before) => Depth(before) + 1
    case Turn(loop, _) => Depth(loop) + 1
    case Taken(cond) => Depth(cond) + 1
  }

  function Outer(x: Place): Place {
    match x case First => First case After(p) => p case Turn(p, _) => p case Taken(p) => p
  }

  /** `x` is `at`, or is reached from there. */
  predicate From(x: Place, at: Place) {
    x == at || (x != First && From(Outer(x), at))
  }

  lemma {:induction false} FromDeeper(x: Place, at: Place)
    requires From(x, at)
    ensures Depth(at) <= Depth(x) && (Depth(at) == Depth(x) ==> x == at)
  {
    if x != at { FromDeeper(Outer(x), at); }
  }

  lemma {:induction false} FromTrans(x: Place, y: Place, z: Place)
    requires From(x, y) && From(y, z)
    ensures From(x, z)
  {
    if x != y { FromTrans(Outer(x), y, z); }
  }

  /** Places of equal depth have nothing in common behind them. */
  lemma {:induction false} FromOne(x: Place, a: Place, b: Place)
    requires From(x, a) && From(x, b) && Depth(a) == Depth(b)
    ensures a == b
  {
    if x == a {
      FromDeeper(x, b);
    } else if x == b {
      FromDeeper(x, a);
    } else {
      FromOne(Outer(x), a, b);
    }
  }

  // ---------------------------------------------------------------- flat names and origins

  /** Flat names have different origins, and counters their own. */
  ghost predicate OneToOne(val: Store<Origin>) {
    && (forall x, y | x in val && y in val && val[x] == val[y] :: x == y)
    && (forall x: IoName | x in val && x.Step? :: val[x] == Counter(x.region, x.iteration))
    && (forall x | x in val && val[x].Counter? :: x == Step(val[x].region, val[x].iteration))
  }

  /** Nothing known so far was made from `at` on. */
  ghost predicate Vacant(val: Store<Origin>, at: Place) {
    forall x | x in val && val[x].Made? :: !From(val[x].place, at)
  }

  /** What is new was made from `at` on, by clones, or is a counter. */
  ghost predicate Adds(val: Store<Origin>, val': Store<Origin>, at: Place) {
    && (forall x | x in val :: x in val' && val'[x] == val[x])
    && forall x | x in val' && x !in val ::
         x.Step? || (x.Output? && x.node.Minted? && val'[x].Made? && From(val'[x].place, at))
  }

  lemma AddsTrans(a: Store<Origin>, b: Store<Origin>, c: Store<Origin>, first: Place, second: Place, at: Place)
    requires Adds(a, b, first) && Adds(b, c, second) && From(first, at) && From(second, at)
    ensures Adds(a, c, at)
  {
    forall x | x in c && x !in a
      ensures x.Step? || (x.Output? && x.node.Minted? && c[x].Made? && From(c[x].place, at))
    {
      if x in b {
        if !x.Step? { FromTrans(c[x].place, first, at); }
      } else if !x.Step? {
        FromTrans(c[x].place, second, at);
      }
    }
  }

  /** What was made at one place leaves its siblings vacant. */
  lemma StaysVacant(val: Store<Origin>, val': Store<Origin>, from: Place, at: Place)
    requires Adds(val, val', from) && OneToOne(val') && Vacant(val, at) && Depth(from) == Depth(at) && from != at
    ensures Vacant(val', at)
  {
    forall x | x in val' && val'[x].Made? ensures !From(val'[x].place, at) {
      if x !in val && From(val'[x].place, at) {
        FromOne(val'[x].place, from, at);
      }
    }
  }

  lemma NextIsFrom(at: Place)
    ensures From(After(at), at)
  {
    assert From(at, at);
  }

  lemma VacantFurther(val: Store<Origin>, at: Place, further: Place)
    requires Vacant(val, at) && From(further, at)
    ensures Vacant(val, further)
  {
    forall x | x in val && val[x].Made? ensures !From(val[x].place, further) {
      if From(val[x].place, further) { FromTrans(val[x].place, further, at); }
    }
  }

  lemma NodeAdds(n: Node, clone: Node, at: Place, val: Store<Origin>)
    requires OneToOne(val) && Vacant(val, at) && OutputNames(clone) !! val.Keys
    ensures var val' := RunNode(MadeBy(n, at), clone, val);
            && OneToOne(val') && Vacant(val', After(at)) && (clone.name.Minted? ==> Adds(val, val', at))
            && forall x | x in val :: x in val' && val'[x] == val[x]
  {
    var val' := RunNode(MadeBy(n, at), clone, val);
    forall x | x in val' && x !in val ensures x.Output? && x.node == clone.name && val'[x] == Made(n.name, at, x.key) {
    }
    assert From(at, at);
    VacantFurther(val, at, After(at));
    if From(at, After(at)) { FromDeeper(at, After(at)); }
  }

  /** The counter of an iteration, new or known from an outer turn. */
  lemma CounterAdds(id: string, i: nat, val: Store<Origin>, at: Place, fresh_: nat)
    requires OneToOne(val) && Fresh(val, fresh_)
    ensures var val' := val[Step(id, i) := Counter(id, i)];
            OneToOne(val') && Adds(val, val', at) && Fresh(val', fresh_)
            && forall x | x in val' && val'[x].Made? :: x in val && val[x] == val'[x]
  {
  }

  // ---------------------------------------------------------------- the expansion follows the trace

  /** What holds after a piece of program, seen from where its names are used. */
  ghost predicate Follows(rho: Store<Origin>, scope: Scope, st: State, val: Store<Origin>, val': Store<Origin>,
                          at: Place)
  {
    && Agree(rho, scope, st.subst, val') && Tidy(scope, st.subst) && Fresh(val', st.fresh_)
    && OneToOne(val') && Adds(val, val', at)
  }

  lemma FollowsTrans(rho: Store<Origin>, scope: Scope, st: State, val: Store<Origin>, val1: Store<Origin>,
                     val': Store<Origin>, at: Place)
    requires Adds(val, val1, at) && Follows(rho, scope, st, val1, val', After(at))
    ensures Follows(rho, scope, st, val, val', at)
  {
    assert From(at, at) && From(After(at), at);
    AddsTrans(val, val1, val', at, After(at), at);
  }

  /** Flat names stand for the origins of the names they replace, while a body is expanded. */
  lemma {:induction false} FollowProgram(py: Operators, p: Program, inputs: map<string, PyVal>, env: map<string, PyVal>,
                                         rho: Store<Origin>, scope: Scope, st: State, val: Store<Origin>,
                                         ids: set<string>, at: Place)
    returns (rho': Store<Origin>, val': Store<Origin>)
    requires Scoped(p, rho.Keys, ids) && env.Keys <= ids && Ready(rho, scope, st, val, IdsOf(p))
    requires OneToOne(val) && Vacant(val, at)
    requires ExpandProgram(py, p, inputs, env, scope, st).Ok?
    ensures TraceProgram(py, p, inputs, rho, at) == Ok(rho') && rho'.Keys == Defined(p, rho.Keys)
    ensures var (scope', st') := ExpandProgram(py, p, inputs, env, scope, st).value;
            Follows(rho', scope', st', val, val', at)
    decreases p, 0
  {
    match p
    case Nil =>
      rho', val' := rho, val;
    case Cons(NodeOp(n), rest) =>
      hide *;
      var rho1, scope1, st1, val1 := NodeStep(py, p, inputs, env, rho, scope, st, val, ids, at);
      rho', val' := FollowProgram(py, rest, inputs, env, rho1, scope1, st1, val1, ids, After(at));
      var (scope', st') := ExpandProgram(py, p, inputs, env, scope, st).value;
      FollowsTrans(rho', scope', st', val, val1, val', at);
    case Cons(RegionOp(r), rest) =>
      hide *;
      RegionUnfolds(py, p, inputs, env, rho, scope, st, ids);
      var results, val1 := FollowRegion(py, r, inputs, env, rho, scope, st, val, ids, at);
      var st1 := ExpandRegion(py, r, inputs, env, scope, st).value;
      RegionDone(py, p, inputs, env, rho, results, scope, st, val, val1, ids, at);
      rho', val' := FollowProgram(py, rest, inputs, env, rho + Named(r, results), scope, st1, val1, ids, After(at));
      var (scope', st') := ExpandProgram(py, p, inputs, env, scope, st).value;
      FollowsTrans(rho', scope', st', val, val1, val', at);
  }

  /** One node of a body. */
  lemma NodeStep(py: Operators, p: Program, inputs: map<string, PyVal>, env: map<string, PyVal>,
                 rho: Store<Origin>, scope: Scope, st: State, val: Store<Origin>, ids: set<string>, at: Place)
    returns (rho1: Store<Origin>, scope1: Scope, st1: State, val1: Store<Origin>)
    requires p.Cons? && p.op.NodeOp? && Scoped(p, rho.Keys, ids) && Ready(rho, scope, st, val, IdsOf(p))
    requires OneToOne(val) && Vacant(val, at)
    requires ExpandProgram(py, p, inputs, env, scope, st).Ok?
    ensures Scoped(p.rest, rho1.Keys, ids) && Ready(rho1, scope1, st1, val1, IdsOf(p.rest))
    ensures OneToOne(val1) && Vacant(val1, After(at)) && Adds(val, val1, at)
    ensures ExpandProgram(py, p, inputs, env, scope, st) == ExpandProgram(py, p.rest, inputs, env, scope1, st1)
    ensures TraceProgram(py, p, inputs, rho, at) == TraceProgram(py, p.rest, inputs, rho1, After(at))
    ensures Defined(p, rho.Keys) == Defined(p.rest, rho1.Keys)
  {
    hide From, Adds, Vacant, OneToOne;
    var n := p.op.node;
    SimNode(MadeBy(n, at), n, rho, scope, st, val);
    var clone := Clone(n, scope, st).value;
    CloneIsFresh(MadeBy(n, at), clone, val, st.fresh_);
    NodeAdds(n, clone, at, val);
    rho1, scope1 := RunNode(MadeBy(n, at), n, rho), BindOutputs(n, clone, scope);
    st1, val1 := Emit(clone, st), RunNode(MadeBy(n, at), clone, val);
  }

  lemma RegionUnfolds(py: Operators, p: Program, inputs: map<string, PyVal>, env: map<string, PyVal>,
                      rho: Store<Origin>, scope: Scope, st: State, ids: set<string>)
    requires p.Cons? && p.op.RegionOp? && Scoped(p, rho.Keys, ids)
    requires ExpandProgram(py, p, inputs, env, scope, st).Ok?
    ensures RegionScoped(p.op.region, rho.Keys, ids) && ExpandRegion(py, p.op.region, inputs, env, scope, st).Ok?
    ensures forall val: Store<Origin> | Ready(rho, scope, st, val, IdsOf(p)) ::
              Ready(rho, scope, st, val, IdsOfRegion(p.op.region))
  {
  }

  /** After a region its results are known by their origins. */
  lemma RegionDone(py: Operators, p: Program, inputs: map<string, PyVal>, env: map<string, PyVal>, rho: Store<Origin>,
                   results: map<string, Origin>, scope: Scope, st: State, val: Store<Origin>, val1: Store<Origin>,
                   ids: set<string>, at: Place)
    requires p.Cons? && p.op.RegionOp? && Scoped(p, rho.Keys, ids) && Ready(rho, scope, st, val, IdsOf(p))
    requires ExpandProgram(py, p, inputs, env, scope, st).Ok?
               && ExpandRegion(py, p.op.region, inputs, env, scope, st).Ok?
    requires TraceRegion(py, p.op.region, inputs, rho, at) == Ok(results) && results.Keys == ResultKeys(p.op.region)
    requires Follows(rho + Named(p.op.region, results), scope,
                     ExpandRegion(py, p.op.region, inputs, env, scope, st).value, val, val1, at)
    ensures var rho1, st1 := rho + Named(p.op.region, results),
              ExpandRegion(py, p.op.region, inputs, env, scope, st).value;
            && Scoped(p.rest, rho1.Keys, ids) && Ready(rho1, scope, st1, val1, IdsOf(p.rest))
            && OneToOne(val1) && Adds(val, val1, at)
            && ExpandProgram(py, p, inputs, env, scope, st) == ExpandProgram(py, p.rest, inputs, env, scope, st1)
            && TraceProgram(py, p, inputs, rho, at) == TraceProgram(py, p.rest, inputs, rho1, After(at))
            && Defined(p, rho.Keys) == Defined(p.rest, rho1.Keys)
  {
    hide From, Adds, Vacant, OneToOne, ExpandRegion, TraceRegion, Agree, Tidy, Fresh, RegionScoped;
    RegionGrows(py, p.op.region, inputs, env, scope, st);
    NamedKeys(p.op.region, results, rho);
  }

  lemma {:induction false} FollowRegion(py: Operators, r: Region, inputs: map<string, PyVal>, env: map<string, PyVal>,
                                        rho: Store<Origin>, scope: Scope, st: State, val: Store<Origin>,
                                        ids: set<string>, at: Place)
    returns (results: map<string, Origin>, val': Store<Origin>)
    requires RegionScoped(r, rho.Keys, ids) && env.Keys <= ids && Ready(rho, scope, st, val, IdsOfRegion(r))
    requires OneToOne(val) && Vacant(val, at)
    requires ExpandRegion(py, r, inputs, env, scope, st).Ok?
    ensures TraceRegion(py, r, inputs, rho, at) == Ok(results) && results.Keys == ResultKeys(r)
    ensures Follows(rho + Named(r, results), scope, ExpandRegion(py, r, inputs, env, scope, st).value, val, val', at)
    ensures Vacant(val', After(at))
    decreases r, 0
  {
    hide ExpandBranch, TraceBranch, ExpandLoop, TraceLoop, ResolveAll, From, Vacant, Adds, OneToOne, Scoped,
         BranchScoped;
    hide Agree, Tidy, Fresh, Eval, Follows, Steps;
    NextIsFrom(at);
    VacantFurther(val, at, After(at));
    match r
    case Loop(id, trip, carryInit, _, _) =>
      results, val' := FollowLoopRegion(py, r, inputs, env, rho, scope, st, val, ids, at);
    case Cond(id, predicate_, keys, then_, else_) =>
      SameValue(py, predicate_, inputs, env, ids);
      var v := Eval(py, predicate_, inputs + env).value;
      if Truthy(v) {
        results, val' := FollowBranch(py, r, then_, inputs, env, rho, scope, st, val, ids, at);
      } else if else_.Some? {
        results, val' := FollowBranch(py, r, else_.value, inputs, env, rho, scope, st, val, ids, at);
      } else {
        results, val' := map[], val;
        assert rho + Named(r, results) == rho;
        FollowsNothing(rho, scope, st, val, at);
      }
  }

  lemma FollowsNothing(rho: Store<Origin>, scope: Scope, st: State, val: Store<Origin>, at: Place)
    requires Agree(rho, scope, st.subst, val) && Tidy(scope, st.subst) && Fresh(val, st.fresh_) && OneToOne(val)
    ensures Follows(rho, scope, st, val, val, at)
  {
    hide Agree, Tidy, Fresh, OneToOne;
  }

  lemma {:induction false} FollowLoopRegion(py: Operators, r: Region, inputs: map<string, PyVal>,
                                            env: map<string, PyVal>,
                                            rho: Store<Origin>, scope: Scope, st: State, val: Store<Origin>,
                                            ids: set<string>, at: Place)
    returns (results: map<string, Origin>, val': Store<Origin>)
    requires r.Loop? && RegionScoped(r, rho.Keys, ids) && env.Keys <= ids && Ready(rho, scope, st, val, IdsOfRegion(r))
    requires OneToOne(val) && Vacant(val, at)
    requires ExpandRegion(py, r, inputs, env, scope, st).Ok?
    ensures TraceRegion(py, r, inputs, rho, at) == Ok(results) && results.Keys == ResultKeys(r)
    ensures Follows(rho + Named(r, results), scope, ExpandRegion(py, r, inputs, env, scope, st).value, val, val', at)
    ensures Vacant(val', After(at))
    decreases r.body, 2
  {
    hide ExpandProgram, TraceProgram, ExpandLoop, TraceLoop, ResolveAll, From, Vacant, Adds, OneToOne, Scoped, Agree,
         Fresh, Named;
    SameValue(py, r.trip, inputs, env, ids);
    var count := TripCount(py, r.id, r.trip, inputs + env).value;
    var current, origins := ResolveAll(r.carryInit, scope, st.subst), ReadAll(Counting(r.id), r.carryInit, rho);
    ResolveAllAgrees(Counting(r.id), r.carryInit, rho, scope, st.subst, val, st.fresh_);
    LoopUnfolds(py, r, inputs, env, scope, st, count);
    ChildrenVacant(val, at);
    var loop := ExpandLoop(py, r, inputs, env, scope, current, 0, count, st).value;
    assert Ready(rho, scope, st, val, IdsOf(r.body));
    results, val' := FollowLoop(py, r, inputs, env, rho, scope, current, origins, 0, count, st, val, ids, at);
    Published(r, loop.0, results, rho, scope, loop.1, val, val', at);
  }

  lemma Published(r: Region, current: map<string, NodeIO>, results: map<string, Origin>, rho: Store<Origin>,
                  scope: Scope,
                  st: State, val: Store<Origin>, val': Store<Origin>, at: Place)
    requires Follows(rho, scope, st, val, val', at) && CarryAgrees(current, results, val')
    ensures Follows(rho + Named(r, results), scope, BindResults(r, current, st), val, val', at)
  {
    ResultsAgree(r, current, results, rho, scope, st, val');
  }

  lemma ChildrenVacant(val: Store<Origin>, at: Place)
    requires Vacant(val, at)
    ensures Vacant(val, After(at)) && Vacant(val, Taken(at)) && forall j: nat :: Vacant(val, Turn(at, j))
  {
    VacantFurther(val, at, After(at));
    VacantFurther(val, at, Taken(at));
    forall j: nat ensures Vacant(val, Turn(at, j)) {
      VacantFurther(val, at, Turn(at, j));
    }
  }

  lemma {:induction false} FollowBranch(py: Operators, r: Region, b: Branch, inputs: map<string, PyVal>,
                                        env: map<string, PyVal>,
                                        rho: Store<Origin>, scope: Scope, st: State, val: Store<Origin>,
                                        ids: set<string>, at: Place)
    returns (results: map<string, Origin>, val': Store<Origin>)
    requires BranchScoped(b, ResultKeys(r), rho.Keys, ids) && env.Keys <= ids
               && Ready(rho, scope, st, val, IdsOf(b.body))
    requires OneToOne(val) && Vacant(val, at)
    requires ExpandBranch(py, r, b, inputs, env, scope, st).Ok?
    ensures TraceBranch(py, b, inputs, rho, at) == Ok(results) && results.Keys == ResultKeys(r)
    ensures Follows(rho + Named(r, results), scope, ExpandBranch(py, r, b, inputs, env, scope, st).value, val, val', at)
    ensures Vacant(val', After(at))
    decreases b, 0
  {
    hide ExpandProgram, TraceProgram, ResolveAll, From, Vacant, Adds, OneToOne, Scoped, Agree, Fresh, Named;
    var (scope', st1) := ExpandProgram(py, b.body, inputs, env, scope, st).value;
    var current := ResolveAll(b.results, scope', st1.subst);
    ChildrenVacant(val, at);
    var rho';
    rho', val' := FollowProgram(py, b.body, inputs, env, rho, scope, st, val, ids, Taken(at));
    results := ReadAll(Counting(""), b.results, rho');
    ResolveAllAgrees(Counting(""), b.results, rho', scope', st1.subst, val', st1.fresh_);
    StaysVacant(val, val', Taken(at), After(at));
    BodyDone(py, b.body, inputs, env, rho, scope, st, val, val', Taken(at), at);
    Published(r, current, results, rho, scope, st1, val, val', at);
  }

  /** What a body leaves behind, seen from outside. */
  lemma BodyDone(py: Operators, p: Program, inputs: map<string, PyVal>, env: map<string, PyVal>, rho: Store<Origin>,
                 scope: Scope,
                 st: State, val: Store<Origin>, val': Store<Origin>, child: Place, at: Place)
    requires ExpandProgram(py, p, inputs, env, scope, st).Ok? && Ready(rho, scope, st, val, IdsOf(p))
    requires Adds(val, val', child) && OneToOne(val') && child != First && Outer(child) == at
    requires var (scope', st') := ExpandProgram(py, p, inputs, env, scope, st).value;
             Tidy(scope', st'.subst) && Fresh(val', st'.fresh_)
    ensures Follows(rho, scope, ExpandProgram(py, p, inputs, env, scope, st).value.1, val, val', at)
  {
    hide ExpandProgram, From, OneToOne;
    var st' := ExpandProgram(py, p, inputs, env, scope, st).value.1;
    ProgramGrows(py, p, inputs, env, scope, st);
    AgreeGrows(rho, scope, st, st', val, val', IdsOf(p));
    ChildAdds(val, val', child, at);
  }

  lemma ChildAdds(val: Store<Origin>, val': Store<Origin>, child: Place, at: Place)
    requires Adds(val, val', child) && child != First && Outer(child) == at
    ensures Adds(val, val', at)
  {
    assert From(child, at) by { assert From(at, at); }
    AddsTrans(val, val', val', child, child, at);
  }

  lemma {:induction false} FollowLoop(py: Operators, r: Region, inputs: map<string, PyVal>, env: map<string, PyVal>,
                                      rho: Store<Origin>, scope: Scope, current: map<string, NodeIO>,
                                      origins: map<string, Origin>,
                                      i: nat, count: nat, st: State, val: Store<Origin>, ids: set<string>, at: Place)
    returns (results: map<string, Origin>, val': Store<Origin>)
    requires r.Loop? && i <= count && RegionScoped(r, rho.Keys, ids) && env.Keys <= ids
    requires Ready(rho, scope, st, val, IdsOf(r.body))
    requires CarryAgrees(current, origins, val) && current.Keys == r.carryInit.Keys
    requires OneToOne(val) && Vacant(val, After(at)) && forall j: nat | j >= i :: Vacant(val, Turn(at, j))
    requires ExpandLoop(py, r, inputs, env, scope, current, i, count, st).Ok?
    ensures TraceLoop(py, r, inputs, rho, origins, i, count, at) == Ok(results) && results.Keys == r.carryInit.Keys
    ensures var (current', st') := ExpandLoop(py, r, inputs, env, scope, current, i, count, st).value;
            CarryAgrees(current', results, val') && Follows(rho, scope, st', val, val', at)
    ensures Vacant(val', After(at))
    decreases r.body, 1, count - i
  {
    hide ExpandProgram, TraceProgram, ExpandIteration, ResolveAll, ExpandLoop, TraceLoop, From, Vacant, Adds, OneToOne,
         RegionScoped;
    if i == count {
      AddsNothing(val, at);
      LoopEnds(py, r, inputs, env, scope, rho, current, origins, count, st, at);
      results, val' := origins, val;
    } else {
      LoopStepUnfolds(py, r, inputs, env, scope, current, i, count, st);
      var (scope1, st1) := ExpandIteration(py, r, inputs, env, scope, current, i, st).value;
      var current1 := ResolveAll(r.carryOut, scope1, st1.subst);
      var origins1, val1 := FollowIteration(py, r, inputs, env, rho, scope, current, origins, i, st, val, ids, at);
      TurnsStayVacant(val, val1, at, i);
      results, val' := FollowLoop(py, r, inputs, env, rho, scope, current1, origins1, i + 1, count, st1, val1, ids, at);
      TraceStepUnfolds(py, r, inputs, rho, origins, i, count, at);
      ChildAdds(val, val1, Turn(at, i), at);
      AddsMore(val, val1, val', at);
    }
  }

  lemma AddsNothing(val: Store<Origin>, at: Place)
    ensures Adds(val, val, at)
  {
  }

  lemma AddsMore(a: Store<Origin>, b: Store<Origin>, c: Store<Origin>, at: Place)
    requires Adds(a, b, at) && Adds(b, c, at)
    ensures Adds(a, c, at)
  {
    assert From(at, at);
    AddsTrans(a, b, c, at, at, at);
  }

  lemma LoopEnds(py: Operators, r: Region, inputs: map<string, PyVal>, env: map<string, PyVal>, scope: Scope,
                 rho: Store<Origin>,
                 current: map<string, NodeIO>, origins: map<string, Origin>, count: nat, st: State, at: Place)
    requires r.Loop?
    ensures ExpandLoop(py, r, inputs, env, scope, current, count, count, st) == Ok((current, st))
    ensures TraceLoop(py, r, inputs, rho, origins, count, count, at) == Ok(origins)
  {
  }

  lemma TraceStepUnfolds(py: Operators, r: Region, inputs: map<string, PyVal>, rho: Store<Origin>,
                         origins: map<string, Origin>,
                         i: nat, count: nat, at: Place)
    requires r.Loop? && i < count
    ensures var body := TraceProgram(py, r.body, inputs, IterationStore(Counting(r.id), r, i, origins, rho),
                                     Turn(at, i));
            body.Ok? ==> TraceLoop(py, r, inputs, rho, origins, i, count, at)
                         == TraceLoop(py, r, inputs, rho, ReadAll(Counting(r.id), r.carryOut, body.value), i + 1, count,
                                      at)
  {
  }

  lemma TurnsStayVacant(val: Store<Origin>, val1: Store<Origin>, at: Place, i: nat)
    requires Adds(val, val1, Turn(at, i)) && OneToOne(val1)
    requires Vacant(val, After(at)) && forall j: nat | j >= i :: Vacant(val, Turn(at, j))
    ensures Vacant(val1, After(at)) && forall j: nat | j >= i + 1 :: Vacant(val1, Turn(at, j))
  {
    StaysVacant(val, val1, Turn(at, i), After(at));
    forall j: nat | j >= i + 1 ensures Vacant(val1, Turn(at, j)) {
      StaysVacant(val, val1, Turn(at, i), Turn(at, j));
    }
  }

  lemma {:induction false} FollowIteration(py: Operators, r: Region, inputs: map<string, PyVal>,
                                           env: map<string, PyVal>,
                                           rho: Store<Origin>, scope: Scope, current: map<string, NodeIO>,
                                           origins: map<string, Origin>,
                                           i: nat, st: State, val: Store<Origin>, ids: set<string>, at: Place)
    returns (origins1: map<string, Origin>, val1: Store<Origin>)
    requires r.Loop? && RegionScoped(r, rho.Keys, ids) && env.Keys <= ids
    requires Ready(rho, scope, st, val, IdsOf(r.body))
    requires CarryAgrees(current, origins, val) && current.Keys == r.carryInit.Keys
    requires OneToOne(val) && Vacant(val, Turn(at, i))
    requires ExpandIteration(py, r, inputs, env, scope, current, i, st).Ok?
    ensures var body := TraceProgram(py, r.body, inputs, IterationStore(Counting(r.id), r, i, origins, rho),
                                     Turn(at, i));
            body.Ok? && origins1 == ReadAll(Counting(r.id), r.carryOut, body.value)
    ensures var (scope1, st1) := ExpandIteration(py, r, inputs, env, scope, current, i, st).value;
            && Ready(rho, scope, st1, val1, IdsOf(r.body))
            && CarryAgrees(ResolveAll(r.carryOut, scope1, st1.subst), origins1, val1)
            && ResolveAll(r.carryOut, scope1, st1.subst).Keys == r.carryInit.Keys
    ensures OneToOne(val1) && Adds(val, val1, Turn(at, i))
    decreases r.body, 1, 0
  {
    hide *;
    var scope0, st0, env0 := IterationScope(r, i, current, scope), Inject(r, i, st), env[r.id := PyInt(i)];
    var rho0 := IterationStore(Counting(r.id), r, i, origins, rho);
    var val0 := IterationStart(r, i, current, origins, rho, scope, st, val, Turn(at, i));
    IterationUnfolds(py, r, inputs, env, rho, rho0, scope, current, i, st, ids);
    var rho1;
    rho1, val1 := FollowProgram(py, r.body, inputs, env0, rho0, scope0, st0, val0, ids, Turn(at, i));
    origins1 := ReadAll(Counting(r.id), r.carryOut, rho1);
    IterationOver(py, r, inputs, env, rho, rho0, rho1, scope, current, i, st, val, val0, val1, ids, Turn(at, i));
  }

  /** The top of an iteration. */
  lemma IterationStart(r: Region, i: nat, current: map<string, NodeIO>, origins: map<string, Origin>,
                       rho: Store<Origin>, scope: Scope, st: State, val: Store<Origin>, at: Place)
                       returns (val0: Store<Origin>)
    requires r.Loop? && Ready(rho, scope, st, val, IdsOf(r.body)) && OneToOne(val) && Vacant(val, at)
    requires CarryAgrees(current, origins, val) && current.Keys == r.carryInit.Keys
    ensures IterationStore(Counting(r.id), r, i, origins, rho).Keys == LoopDefined(r, rho.Keys)
    ensures Ready(IterationStore(Counting(r.id), r, i, origins, rho), IterationScope(r, i, current, scope),
                  Inject(r, i, st), val0, IdsOf(r.body))
    ensures OneToOne(val0) && Vacant(val0, at) && Adds(val, val0, at) && Ready(rho, scope, st, val0, IdsOf(r.body))
  {
    hide From, IterationStore, IterationScope, LoopDefined, Agree;
    val0 := val[Step(r.id, i) := Counter(r.id, i)];
    CounterAdds(r.id, i, val, at, st.fresh_);
    StillReady(rho, scope, st, val, val0, IdsOf(r.body), at, current, origins);
    IterationReady(Counting(r.id), r, i, current, origins, rho, scope, st, val0);
  }

  lemma IterationUnfolds(py: Operators, r: Region, inputs: map<string, PyVal>, env: map<string, PyVal>,
                         rho: Store<Origin>, rho0: Store<Origin>,
                         scope: Scope, current: map<string, NodeIO>, i: nat, st: State, ids: set<string>)
    requires r.Loop? && RegionScoped(r, rho.Keys, ids) && env.Keys <= ids && rho0.Keys == LoopDefined(r, rho.Keys)
    ensures Scoped(r.body, rho0.Keys, ids) && env[r.id := PyInt(i)].Keys <= ids
    ensures MapReadsIn(r.carryOut, Defined(r.body, rho0.Keys)) && r.carryOut.Keys == r.carryInit.Keys
    ensures ExpandIteration(py, r, inputs, env, scope, current, i, st)
            == ExpandProgram(py, r.body, inputs, env[r.id := PyInt(i)], IterationScope(r, i, current, scope),
                             Inject(r, i, st))
  {
    hide ExpandProgram, IterationScope, LoopDefined, Scoped, Defined;
  }

  lemma IterationOver(py: Operators, r: Region, inputs: map<string, PyVal>, env: map<string, PyVal>,
                      rho: Store<Origin>, rho0: Store<Origin>, rho1: Store<Origin>, scope: Scope,
                      current: map<string, NodeIO>, i: nat, st: State,
                      val: Store<Origin>, val0: Store<Origin>, val1: Store<Origin>, ids: set<string>, at: Place)
    requires r.Loop? && RegionScoped(r, rho.Keys, ids) && env.Keys <= ids && rho0.Keys == LoopDefined(r, rho.Keys)
    requires Ready(rho, scope, st, val0, IdsOf(r.body)) && Adds(val, val0, at)
    requires ExpandIteration(py, r, inputs, env, scope, current, i, st).Ok? && rho1.Keys == Defined(r.body, rho0.Keys)
    requires var (scope1, st1) := ExpandIteration(py, r, inputs, env, scope, current, i, st).value;
             Follows(rho1, scope1, st1, val0, val1, at)
    ensures var (scope1, st1) := ExpandIteration(py, r, inputs, env, scope, current, i, st).value;
            && Ready(rho, scope, st1, val1, IdsOf(r.body))
            && CarryAgrees(ResolveAll(r.carryOut, scope1, st1.subst), ReadAll(Counting(r.id), r.carryOut, rho1), val1)
            && ResolveAll(r.carryOut, scope1, st1.subst).Keys == r.carryInit.Keys
    ensures OneToOne(val1) && Adds(val, val1, at)
  {
    hide ExpandProgram, From, OneToOne, IterationScope, LoopDefined, Scoped, Defined;
    var (scope1, st1) := ExpandIteration(py, r, inputs, env, scope, current, i, st).value;
    IterationUnfolds(py, r, inputs, env, rho, rho0, scope, current, i, st, ids);
    ResolveAllAgrees(Counting(r.id), r.carryOut, rho1, scope1, st1.subst, val1, st1.fresh_);
    ProgramGrows(py, r.body, inputs, env[r.id := PyInt(i)], IterationScope(r, i, current, scope), Inject(r, i, st));
    AgreeGrows(rho, scope, st, st1, val0, val1, IdsOf(r.body));
    AddsMore(val, val0, val1, at);
  }

  lemma StillReady(rho: Store<Origin>, scope: Scope, st: State, val: Store<Origin>, val': Store<Origin>,
                   ids: set<string>, at: Place,
                   current: map<string, NodeIO>, origins: map<string, Origin>)
    requires Ready(rho, scope, st, val, ids) && Fresh(val', st.fresh_) && Adds(val, val', at)
               && CarryAgrees(current, origins, val)
    ensures Ready(rho, scope, st, val', ids) && CarryAgrees(current, origins, val')
    ensures Vacant(val, at) && (forall x | x in val' && val'[x].Made? :: x in val && val[x] == val'[x]) ==>
              Vacant(val', at)
  {
  }

  // ---------------------------------------------------------------- whole workflows

  /** Plain nodes still to come have defined nothing yet. */
  lemma PlainsStayFresh(items: seq<Item>, val: Store<Origin>, val': Store<Origin>, at: Place)
    requires items != [] && items[0].Reg? && PlainsFresh(items, val) && Adds(val, val', at)
    requires forall n | n in PlainsOf(items[1..]) :: n.name.Authored?
    ensures PlainsFresh(items[1..], val')
  {
    assert PlainsOf(items) == PlainsOf(items[1..]);
  }

  /** The expansion of the items in authoring order follows their trace. */
  lemma {:induction false} FollowItems(py: Operators, items: seq<Item>, inputs: map<string, PyVal>, rho: Store<Origin>,
                                       st: State,
                                       end: State, val: Store<Origin>, ids: set<string>, at: Place)
    returns (rho': Store<Origin>, val': Store<Origin>)
    requires ItemsScoped(items, rho.Keys, ids) && Ready(rho, map[], st, val, IdsOfItems(items))
               && PlainsFresh(items, val)
    requires OneToOne(val) && Vacant(val, at)
    requires ExpandRegions(py, RegionsOf(items), inputs, st) == Ok(end)
    ensures TraceItems(py, items, inputs, rho, at) == Ok(rho') && rho'.Keys == ItemsDefined(items, rho.Keys)
    ensures Agree(rho', map[], end.subst, val') && OneToOne(val')
    decreases |items|
  {
    if items == [] {
      rho', val' := rho, val;
    } else if items[0].Plain? {
      hide *;
      var rho1, val1 := PlainStep(py, items, inputs, rho, st, end, val, ids, at);
      rho', val' := FollowItems(py, items[1..], inputs, rho1, st, end, val1, ids, After(at));
    } else {
      hide *;
      var rho1, st1, val1 := RegionStep(py, items, inputs, rho, st, end, val, ids, at);
      rho', val' := FollowItems(py, items[1..], inputs, rho1, st1, end, val1, ids, After(at));
    }
  }

  lemma PlainStep(py: Operators, items: seq<Item>, inputs: map<string, PyVal>, rho: Store<Origin>, st: State,
                  end: State, val: Store<Origin>, ids: set<string>, at: Place)
    returns (rho1: Store<Origin>, val1: Store<Origin>)
    requires items != [] && items[0].Plain? && ItemsScoped(items, rho.Keys, ids)
    requires Ready(rho, map[], st, val, IdsOfItems(items)) && PlainsFresh(items, val)
    requires OneToOne(val) && Vacant(val, at)
    requires ExpandRegions(py, RegionsOf(items), inputs, st) == Ok(end)
    ensures ItemsScoped(items[1..], rho1.Keys, ids) && Ready(rho1, map[], st, val1, IdsOfItems(items[1..]))
              && PlainsFresh(items[1..], val1)
    ensures OneToOne(val1) && Vacant(val1, After(at))
    ensures RegionsOf(items) == RegionsOf(items[1..])
    ensures TraceItems(py, items, inputs, rho, at) == TraceItems(py, items[1..], inputs, rho1, After(at))
    ensures ItemsDefined(items, rho.Keys) == ItemsDefined(items[1..], rho1.Keys)
  {
    hide From, Vacant, OneToOne, ExpandRegions, NodeScoped, Agree, Tidy, Fresh, PlainsFresh, Patch;
    var n := items[0].node;
    var patched := Patch(n, st.subst);
    PlainsUnfold(items, val);
    SimPlain(MadeBy(n, at), n, rho, st, val, IdsOfItems(items));
    NodeAdds(n, patched, at, val);
    rho1, val1 := RunNode(MadeBy(n, at), n, rho), RunNode(MadeBy(n, at), patched, val);
    PlainKeepsFresh(items, rho.Keys, ids, patched, val, val1);
  }

  lemma PlainsUnfold(items: seq<Item>, val: Store<Origin>)
    requires items != [] && items[0].Plain? && PlainsFresh(items, val)
    ensures RegionsOf(items) == RegionsOf(items[1..])
    ensures OutputNames(items[0].node) !! val.Keys
  {
    assert PlainsOf(items) == [items[0].node] + PlainsOf(items[1..]);
    assert items[0].node in PlainsOf(items);
    assert RegionsOf(items) == RegionsOf(items[1..]);
  }

  lemma PlainKeepsFresh(items: seq<Item>, defined: set<IoName>, ids: set<string>, patched: Node, val: Store<Origin>,
                        val1: Store<Origin>)
    requires items != [] && items[0].Plain? && ItemsScoped(items, defined, ids) && PlainsFresh(items, val)
    requires OutputNames(patched) == OutputNames(items[0].node) && val1.Keys == val.Keys + OutputNames(patched)
    ensures PlainsFresh(items[1..], val1)
  {
    hide NodeScoped;
    assert PlainsOf(items) == [items[0].node] + PlainsOf(items[1..]);
    forall n | n in PlainsOf(items[1..]) ensures n in PlainsOf(items) {
    }
  }

  lemma RegionStep(py: Operators, items: seq<Item>, inputs: map<string, PyVal>, rho: Store<Origin>, st: State,
                   end: State, val: Store<Origin>, ids: set<string>, at: Place)
    returns (rho1: Store<Origin>, st1: State, val1: Store<Origin>)
    requires items != [] && items[0].Reg? && ItemsScoped(items, rho.Keys, ids)
    requires Ready(rho, map[], st, val, IdsOfItems(items)) && PlainsFresh(items, val)
    requires OneToOne(val) && Vacant(val, at)
    requires ExpandRegions(py, RegionsOf(items), inputs, st) == Ok(end)
    ensures ItemsScoped(items[1..], rho1.Keys, ids) && Ready(rho1, map[], st1, val1, IdsOfItems(items[1..]))
              && PlainsFresh(items[1..], val1)
    ensures OneToOne(val1) && Vacant(val1, After(at))
    ensures ExpandRegions(py, RegionsOf(items[1..]), inputs, st1) == Ok(end)
    ensures TraceItems(py, items, inputs, rho, at) == TraceItems(py, items[1..], inputs, rho1, After(at))
    ensures ItemsDefined(items, rho.Keys) == ItemsDefined(items[1..], rho1.Keys)
  {
    hide From, Vacant, OneToOne, ExpandRegion, TraceRegion, RegionScoped, Agree, Tidy, Adds, PlainsFresh;
    var r := items[0].region;
    RegUnfoldsArrange(py, items, inputs, st, end.subst);
    st1 := ExpandRegion(py, r, inputs, map[], map[], st).value;
    RegionGrows(py, r, inputs, map[], map[], st);
    var results;
    results, val1 := FollowRegion(py, r, inputs, map[], rho, map[], st, val, ids, at);
    rho1 := rho + Named(r, results);
    NamedKeys(r, results, rho);
    PlainsAuthored(items[1..], rho1.Keys, ids);
    PlainsStayFresh(items, val, val1, at);
  }

  /** Two names of a workflow stand for one flat name if and only if they have one origin. */
  lemma OneTargetOneOrigin(py: Operators, w: Workflow, items: seq<Item>, inputs: map<string, PyVal>, minted: nat,
                           g: Expanded)
    requires WellScoped(w, items, inputs) && Expand(py, w, inputs, minted) == Ok(g)
    ensures OriginsOf(py, items, inputs).Ok?
    ensures OriginsOf(py, items, inputs).value.Keys == ItemsDefined(items, RequestNames(inputs))
    ensures var origins := OriginsOf(py, items, inputs).value;
            forall x, y | x in origins && y in origins ::
              OutputTarget(x, g.subst) == OutputTarget(y, g.subst) <==> origins[x] == origins[y]
  {
    var st, rho := Start(w, minted), SuppliedStore(inputs);
    var end := ExpandRegions(py, w.regions, inputs, st).value;
    assert rho.Keys == RequestNames(inputs);
    assert Ready(rho, map[], st, rho, IdsOfItems(items)) && OneToOne(rho) && Vacant(rho, First)
        && PlainsFresh(items, rho);
    var origins, val := FollowItems(py, items, inputs, rho, st, end, rho, IdsOfItems(items), First);
    forall x | x in origins ensures OutputTarget(x, g.subst) == Target(x, map[], end.subst) {
    }
  }
}
