/** Expanding a whole workflow: plain nodes first, regions in order, then patching, preserves its meaning. */
module WholeWorkflow {
  import opened Wrappers
  import opened Expressions
  import opened Workflows
  import opened Expansion
  import opened Interpreter
  import opened FlatGraphs
  import opened Simulation

  /** Nodes and regions in the order in which they were authored. */
  datatype Item = Plain(node: Node) | Reg(region: Region)

  function PlainsOf(items: seq<Item>): seq<Node> {
    if items == [] then []
    else (match items[0] case Plain(n) => [n] case Reg(_) => []) + PlainsOf(items[1..])
  }

  function RegionsOf(items: seq<Item>): seq<Region> {
    if items == [] then []
    else (match items[0] case Plain(_) => [] case Reg(r) => [r]) + RegionsOf(items[1..])
  }

  function IdsOfItems(items: seq<Item>): set<string> {
    if items == [] then {}
    else (match items[0] case Plain(_) => {} case Reg(r) => IdsOfRegion(r)) + IdsOfItems(items[1..])
  }

  /** The direct meaning: items run in authoring order. */
  function RunItems<V>(py: Operators, sem: Semantics<V>, items: seq<Item>, inputs: map<string, PyVal>, rho: Store<V>)
    : Result<Store<V>, Error>
  {
    if items == [] then Ok(rho)
    else
      match items[0]
      case Plain(n) => RunItems(py, sem, items[1..], inputs, RunNode(sem, n, rho))
      case Reg(r) =>
        var results :- RunRegion(py, sem, r, inputs, rho);
        RunItems(py, sem, items[1..], inputs, rho + Named(r, results))
  }

  predicate ItemsScoped(items: seq<Item>, defined: set<IoName>, ids: set<string>) {
    if items == [] then true
    else
      match items[0]
      case Plain(n) =>
        && NodeScoped(n, defined) && n.name.Authored?
        && n.name !in NamesOf(PlainsOf(items[1..]))
        && ItemsScoped(items[1..], defined + OutputNames(n), ids)
      case Reg(r) =>
        && RegionScoped(r, defined, ids)
        && IdsOfRegion(r) !! IdsOfItems(items[1..])
        && ItemsScoped(items[1..], defined + ResultNames(r), ids)
  }

  function NamesOf(nodes: seq<Node>): set<NodeName> {
    set n | n in nodes :: n.name
  }

  function ItemsDefined(items: seq<Item>, defined: set<IoName>): set<IoName> {
    if items == [] then defined
    else ItemsDefined(items[1..],
                      defined + match items[0] case Plain(n) => OutputNames(n) case Reg(r) => ResultNames(r))
  }

  function RequestNames(inputs: map<string, PyVal>): set<IoName> {
    set x | x in inputs :: Request(x)
  }

  /** `items` is a well-scoped authoring order of the workflow for these request inputs. */
  ghost predicate WellScoped(w: Workflow, items: seq<Item>, inputs: map<string, PyVal>) {
    && PlainsOf(items) == w.nodes && RegionsOf(items) == w.regions
    && ItemsScoped(items, RequestNames(inputs), IdsOfItems(items))
    && forall o | o in w.outputs :: o.0 in ItemsDefined(items, RequestNames(inputs))
  }

  /** The values a flat graph is given: request inputs and injected loop counters. */
  function Given<V>(sem: Semantics<V>, inputs: map<string, PyVal>, injected: map<IoName, int>): Store<V> {
    InputStore(sem, inputs) + map x | x in injected :: x := sem.ofInt(injected[x])
  }

  function InputStore<V>(sem: Semantics<V>, inputs: map<string, PyVal>): Store<V> {
    map x | x in inputs :: Request(x) := sem.ofInput(inputs[x])
  }

  /** A run of the flat graph: it has the given values and solves every node's equations. */
  ghost predicate Solves<V>(sem: Semantics<V>, g: Expanded, inputs: map<string, PyVal>, val: Store<V>) {
    && (forall x | x in Given(sem, inputs, g.injected) :: x in val && val[x] == Given(sem, inputs, g.injected)[x])
    && Valuation(sem, g.nodes, val)
  }

  /** The flat nodes in authoring order: each plain node where it stood, each region's clones in its place. */
  function Arrange(py: Operators, items: seq<Item>, inputs: map<string, PyVal>, st: State, subst: map<IoName, NodeIO>)
    : seq<Node>
    requires ExpandRegions(py, RegionsOf(items), inputs, st).Ok?
  {
    if items == [] then []
    else
      match items[0]
      case Plain(n) =>
        assert RegionsOf(items) == RegionsOf(items[1..]);
        [Patch(n, subst)] + Arrange(py, items[1..], inputs, st, subst)
      case Reg(r) =>
        assert RegionsOf(items)[1..] == RegionsOf(items[1..]);
        var st1 := ExpandRegion(py, r, inputs, map[], map[], st).value;
        RegionGrows(py, r, inputs, map[], map[], st);
        st1.emitted[|st.emitted|..] + Arrange(py, items[1..], inputs, st1, subst)
  }

  /** From `st` to `st'` only clones were appended, numbered by the fresh counter. */
  ghost predicate Clones(st: State, st': State) {
    && st.emitted <= st'.emitted
    && st'.fresh_ - st.fresh_ == |st'.emitted| - |st.emitted|
    && forall i | |st.emitted| <= i < |st'.emitted| :: Cloned(st'.emitted[i], st.fresh_ + i - |st.emitted|)
  }

  lemma ClonesTrans(a: State, b: State, c: State)
    requires Clones(a, b) && Clones(b, c)
    ensures Clones(a, c)
  {
    forall i | |a.emitted| <= i < |b.emitted| ensures Cloned(c.emitted[i], a.fresh_ + i - |a.emitted|) {
      assert c.emitted[i] == b.emitted[i];
    }
  }

  lemma {:induction false} RegionsGrow(py: Operators, items: seq<Item>, inputs: map<string, PyVal>, st: State)
    requires ExpandRegions(py, RegionsOf(items), inputs, st).Ok?
    ensures Grows(st, ExpandRegions(py, RegionsOf(items), inputs, st).value, IdsOfItems(items))
  {
    if items != [] {
      match items[0]
      case Plain(n) =>
        assert RegionsOf(items) == RegionsOf(items[1..]);
        RegionsGrow(py, items[1..], inputs, st);
      case Reg(r) =>
        assert RegionsOf(items)[1..] == RegionsOf(items[1..]);
        var st1 := ExpandRegion(py, r, inputs, map[], map[], st).value;
        RegionGrows(py, r, inputs, map[], map[], st);
        RegionsGrow(py, items[1..], inputs, st1);
        GrowsTrans(st, st1, ExpandRegions(py, RegionsOf(items), inputs, st).value, IdsOfRegion(r),
                   IdsOfItems(items[1..]), IdsOfItems(items));
    }
  }

  ghost predicate PlainsFresh<V>(items: seq<Item>, val: Store<V>) {
    forall x: IoName | x in val :: x.Output? ==> x.node !in NamesOf(PlainsOf(items))
  }

  /** What a plain node reads is settled before later regions are expanded. */
  lemma PatchStable<V>(n: Node, rho: Store<V>, st: State, end: State, ids: set<string>)
    requires NodeScoped(n, rho.Keys) && Before(rho, ids) && Grows(st, end, ids)
    ensures Patch(n, end.subst) == Patch(n, st.subst)
  {
    forall k | k in n.inputs && n.inputs[k].Some?
      ensures Resolve(n.inputs[k].value, map[], end.subst) == Resolve(n.inputs[k].value, map[], st.subst)
    {
      assert n.inputs[k].value.name in rho;
    }
  }

  /** A plain node, patched, computes what it computes directly. */
  lemma SimPlain<V>(sem: Semantics<V>, n: Node, rho: Store<V>, st: State, val: Store<V>, ids: set<string>)
    requires NodeScoped(n, rho.Keys) && n.name.Authored?
    requires Ready(rho, map[], st, val, ids) && OutputNames(n) !! val.Keys
    ensures var patched := Patch(n, st.subst);
            && NodeReadsIn(patched, val.Keys) && OutputNames(patched) == OutputNames(n) && FlatInputs(patched)
            && Agree(RunNode(sem, n, rho), map[], st.subst, RunNode(sem, patched, val))
            && Fresh(RunNode(sem, patched, val), st.fresh_)
  {
    var patched := Patch(n, st.subst);
    ArgumentsResolved(sem, n, rho, map[], st, val);
    forall k | k in n.inputs && n.inputs[k].Some?
      ensures Flat(Resolve(n.inputs[k].value, map[], st.subst))
                && Resolve(n.inputs[k].value, map[], st.subst).name in val
    {
      ResolveIsFlat(n.inputs[k].value, rho, map[], st.subst, val, st.fresh_);
    }
    PlainAgrees(sem, n, patched, rho, st, val);
  }

  lemma PlainAgrees<V>(sem: Semantics<V>, n: Node, patched: Node, rho: Store<V>, st: State, val: Store<V>)
    requires Agree(rho, map[], st.subst, val) && Tidy(map[], st.subst) && Fresh(val, st.fresh_) && n.name.Authored?
    requires patched == n.(inputs := patched.inputs) && OutputNames(n) !! val.Keys
    requires Arguments(sem, n.inputs, rho) == Arguments(sem, patched.inputs, val)
    ensures Agree(RunNode(sem, n, rho), map[], st.subst, RunNode(sem, patched, val))
    ensures Fresh(RunNode(sem, patched, val), st.fresh_)
  {
    var rho', val' := RunNode(sem, n, rho), RunNode(sem, patched, val);
    forall x | x in rho' ensures Target(x, map[], st.subst) in val' && val'[Target(x, map[], st.subst)] == rho'[x] {
      if x in OutputNames(n) { assert Target(x, map[], st.subst) == x; }
    }
  }

  /**
   * The items' nodes, arranged in authoring order, can run from `val`; at the end every name of the
   * direct run's store stands for its value under the final results.
   */
  lemma {:induction false} SimItems<V>(py: Operators, sem: Semantics<V>, items: seq<Item>, inputs: map<string, PyVal>,
                                       rho: Store<V>, st: State, end: State, val: Store<V>, ids: set<string>)
    returns (rho': Store<V>, val': Store<V>)
    requires ItemsScoped(items, rho.Keys, ids) && Ready(rho, map[], st, val, IdsOfItems(items))
               && PlainsFresh(items, val)
    requires ExpandRegions(py, RegionsOf(items), inputs, st) == Ok(end)
    requires Counters(sem, end.injected, val)
    ensures RunItems(py, sem, items, inputs, rho) == Ok(rho') && rho'.Keys == ItemsDefined(items, rho.Keys)
    ensures Ordered(Arrange(py, items, inputs, st, end.subst), val.Keys)
    ensures val' == RunNodes(sem, Arrange(py, items, inputs, st, end.subst), val)
    ensures Agree(rho', map[], end.subst, val') && Tidy(map[], end.subst) && Fresh(val', end.fresh_)
    ensures Clones(st, end)
    decreases |items|
  {
    if items == [] {
      rho', val' := rho, val;
    } else if items[0].Plain? {
      var n := items[0].node;
      var patched := Patch(n, end.subst);
      var val1 := RunNode(sem, patched, val);
      PlainStep(py, sem, items, inputs, rho, st, end, val, ids);
      rho', val' := SimItems(py, sem, items[1..], inputs, RunNode(sem, n, rho), st, end, val1, ids);
      PlainUnfolds(py, sem, items, inputs, rho, st, end.subst);
      OneFirst(sem, patched, Arrange(py, items[1..], inputs, st, end.subst), val);
    } else {
      var r := items[0].region;
      RegUnfolds(py, sem, items, inputs, rho, st, end.subst);
      var st1 := ExpandRegion(py, r, inputs, map[], map[], st).value;
      var results, val1 := RegionStep(py, sem, items, inputs, rho, st, end, val, ids);
      rho', val' := SimItems(py, sem, items[1..], inputs, rho + Named(r, results), st1, end, val1, ids);
      OrderedAppend(sem, st1.emitted[|st.emitted|..], Arrange(py, items[1..], inputs, st1, end.subst), val);
      ClonesTrans(st, st1, end);
    }
  }

  lemma PlainUnfolds<V>(py: Operators, sem: Semantics<V>, items: seq<Item>, inputs: map<string, PyVal>, rho: Store<V>,
                        st: State, subst: map<IoName, NodeIO>)
    requires items != [] && items[0].Plain? && ExpandRegions(py, RegionsOf(items), inputs, st).Ok?
    ensures RegionsOf(items) == RegionsOf(items[1..])
    ensures Arrange(py, items, inputs, st, subst)
              == [Patch(items[0].node, subst)] + Arrange(py, items[1..], inputs, st, subst)
    ensures RunItems(py, sem, items, inputs, rho)
              == RunItems(py, sem, items[1..], inputs, RunNode(sem, items[0].node, rho))
  {
    PlainUnfoldsArrange(py, items, inputs, st, subst);
  }

  lemma PlainUnfoldsArrange(py: Operators, items: seq<Item>, inputs: map<string, PyVal>, st: State,
                            subst: map<IoName, NodeIO>)
    requires items != [] && items[0].Plain? && ExpandRegions(py, RegionsOf(items), inputs, st).Ok?
    ensures RegionsOf(items) == RegionsOf(items[1..])
    ensures Arrange(py, items, inputs, st, subst)
              == [Patch(items[0].node, subst)] + Arrange(py, items[1..], inputs, st, subst)
  {
    assert RegionsOf(items) == RegionsOf(items[1..]);
  }

  lemma RegUnfoldsArrange(py: Operators, items: seq<Item>, inputs: map<string, PyVal>, st: State,
                          subst: map<IoName, NodeIO>)
    requires items != [] && items[0].Reg? && ExpandRegions(py, RegionsOf(items), inputs, st).Ok?
    ensures var st1 := ExpandRegion(py, items[0].region, inputs, map[], map[], st);
            && st1.Ok? && st.emitted <= st1.value.emitted
            && ExpandRegions(py, RegionsOf(items), inputs, st)
              == ExpandRegions(py, RegionsOf(items[1..]), inputs, st1.value)
            && Arrange(py, items, inputs, st, subst)
               == st1.value.emitted[|st.emitted|..] + Arrange(py, items[1..], inputs, st1.value, subst)
  {
    assert RegionsOf(items)[1..] == RegionsOf(items[1..]);
    RegionGrows(py, items[0].region, inputs, map[], map[], st);
  }

  lemma RegUnfolds<V>(py: Operators, sem: Semantics<V>, items: seq<Item>, inputs: map<string, PyVal>, rho: Store<V>,
                      st: State, subst: map<IoName, NodeIO>)
    requires items != [] && items[0].Reg? && ExpandRegions(py, RegionsOf(items), inputs, st).Ok?
    ensures var st1 := ExpandRegion(py, items[0].region, inputs, map[], map[], st);
            && st1.Ok? && st.emitted <= st1.value.emitted
            && ExpandRegions(py, RegionsOf(items), inputs, st)
              == ExpandRegions(py, RegionsOf(items[1..]), inputs, st1.value)
            && Arrange(py, items, inputs, st, subst)
               == st1.value.emitted[|st.emitted|..] + Arrange(py, items[1..], inputs, st1.value, subst)
    ensures var results := RunRegion(py, sem, items[0].region, inputs, rho);
            results.Ok? ==> RunItems(py, sem, items, inputs, rho)
                            == RunItems(py, sem, items[1..], inputs, rho + Named(items[0].region, results.value))
  {
    RegUnfoldsArrange(py, items, inputs, st, subst);
  }

  lemma PlainStep<V>(py: Operators, sem: Semantics<V>, items: seq<Item>, inputs: map<string, PyVal>,
                     rho: Store<V>, st: State, end: State, val: Store<V>, ids: set<string>)
    requires items != [] && items[0].Plain?
    requires ItemsScoped(items, rho.Keys, ids) && Ready(rho, map[], st, val, IdsOfItems(items))
               && PlainsFresh(items, val)
    requires ExpandRegions(py, RegionsOf(items), inputs, st) == Ok(end)
    ensures var n, patched := items[0].node, Patch(items[0].node, end.subst);
            var val1 := RunNode(sem, patched, val);
            && RegionsOf(items) == RegionsOf(items[1..])
            && NodeReadsIn(patched, val.Keys) && OutputNames(patched) !! val.Keys
            && ItemsScoped(items[1..], RunNode(sem, n, rho).Keys, ids)
            && Ready(RunNode(sem, n, rho), map[], st, val1, IdsOfItems(items[1..])) && PlainsFresh(items[1..], val1)
            && forall x | x in val :: x in val1 && val1[x] == val[x]
  {
    var n := items[0].node;
    assert RegionsOf(items) == RegionsOf(items[1..]);
    assert PlainsOf(items) == [n] + PlainsOf(items[1..]);
    assert n in PlainsOf(items);
    RegionsGrow(py, items[1..], inputs, st);
    PatchStable(n, rho, st, end, IdsOfItems(items[1..]));
    SimPlain(sem, n, rho, st, val, IdsOfItems(items));
  }

  lemma RegionStep<V>(py: Operators, sem: Semantics<V>, items: seq<Item>, inputs: map<string, PyVal>,
                      rho: Store<V>, st: State, end: State, val: Store<V>, ids: set<string>)
    returns (results: map<string, V>, val1: Store<V>)
    requires items != [] && items[0].Reg?
    requires ItemsScoped(items, rho.Keys, ids) && Ready(rho, map[], st, val, IdsOfItems(items))
               && PlainsFresh(items, val)
    requires ExpandRegions(py, RegionsOf(items), inputs, st) == Ok(end)
    requires Counters(sem, end.injected, val)
    ensures ExpandRegion(py, items[0].region, inputs, map[], map[], st).Ok?
    ensures RunRegion(py, sem, items[0].region, inputs, rho) == Ok(results)
    ensures var st1 := ExpandRegion(py, items[0].region, inputs, map[], map[], st).value;
            var rho1 := rho + Named(items[0].region, results);
            && Emits(sem, st, st1, val, val1)
            && rho1.Keys == rho.Keys + ResultNames(items[0].region)
            && ItemsScoped(items[1..], rho1.Keys, ids)
            && Ready(rho1, map[], st1, val1, IdsOfItems(items[1..])) && PlainsFresh(items[1..], val1)
            && Counters(sem, end.injected, val1)
  {
    var r := items[0].region;
    RegUnfolds(py, sem, items, inputs, rho, st, end.subst);
    var st1 := ExpandRegion(py, r, inputs, map[], map[], st).value;
    RegionGrows(py, r, inputs, map[], map[], st);
    RegionsGrow(py, items[1..], inputs, st1);
    CountersGrow(sem, st1, end, val, IdsOfItems(items[1..]));
    results, val1 := SimRegion(py, sem, r, inputs, map[], rho, map[], st, val, ids);
    EmitsExtends(sem, st, st1, val, val1);
    NamedKeys(r, results, rho);
    RegionKeepsFresh(sem, items, rho.Keys, ids, st, st1, val, val1);
  }

  lemma OneFirst<V>(sem: Semantics<V>, n: Node, rest: seq<Node>, val: Store<V>)
    requires NodeReadsIn(n, val.Keys) && OutputNames(n) !! val.Keys && Ordered(rest, RunNode(sem, n, val).Keys)
    ensures Ordered([n] + rest, val.Keys) && RunNodes(sem, [n] + rest, val) == RunNodes(sem, rest, RunNode(sem, n, val))
  {
    assert ([n] + rest)[1..] == rest;
  }

  /** Clones define minted names only, so the plain nodes still to come keep their names to themselves. */
  lemma RegionKeepsFresh<V>(sem: Semantics<V>, items: seq<Item>, defined: set<IoName>, ids: set<string>, st: State,
                            st1: State, val: Store<V>, val1: Store<V>)
    requires items != [] && items[0].Reg? && ItemsScoped(items, defined, ids)
    requires Emits(sem, st, st1, val, val1) && PlainsFresh(items, val)
    ensures PlainsFresh(items[1..], val1)
  {
    var new_ := st1.emitted[|st.emitted|..];
    RunNodesExtends(sem, new_, val);
    ProducesAll(new_);
    PlainsAuthored(items, defined, ids);
    assert PlainsOf(items) == PlainsOf(items[1..]);
    forall n | n in new_ ensures n.name.Minted? {
      var i :| 0 <= i < |new_| && new_[i] == n;
      assert Cloned(st1.emitted[|st.emitted| + i], st.fresh_ + (|st.emitted| + i) - |st.emitted|);
    }
  }

  lemma {:induction false} PlainsAuthored(items: seq<Item>, defined: set<IoName>, ids: set<string>)
    requires ItemsScoped(items, defined, ids)
    ensures forall n | n in PlainsOf(items) :: n.name.Authored? && n.name.op == n.op
  {
    if items != [] {
      PlainsAuthored(items[1..], defined + match items[0] case Plain(n) => OutputNames(n) case Reg(r) => ResultNames(r),
                     ids);
    }
  }

  // ---------------------------------------------------------------- from authoring order to emission order

  lemma PatchAllSplit(a: seq<Node>, b: seq<Node>, subst: map<IoName, NodeIO>)
    ensures PatchAll(a + b, subst) == PatchAll(a, subst) + PatchAll(b, subst)
  {
  }

  /** Authoring order is a permutation of emission order: plain nodes, then clones. */
  lemma {:induction false} ArrangeIsPermutation(py: Operators, items: seq<Item>, inputs: map<string, PyVal>, st: State,
                                                end: State)
    requires ExpandRegions(py, RegionsOf(items), inputs, st) == Ok(end)
    ensures st.emitted <= end.emitted
    ensures multiset(Arrange(py, items, inputs, st, end.subst))
            == multiset(PatchAll(PlainsOf(items), end.subst)) + multiset(end.emitted[|st.emitted|..])
    decreases |items|
  {
    if items == [] {
      assert end.emitted[|st.emitted|..] == [];
    } else if items[0].Plain? {
      var n := items[0].node;
      PlainUnfoldsArrange(py, items, inputs, st, end.subst);
      ArrangeIsPermutation(py, items[1..], inputs, st, end);
      PlainFirst(n, Arrange(py, items[1..], inputs, st, end.subst), PlainsOf(items[1..]), end.emitted[|st.emitted|..],
                 end.subst);
    } else {
      RegUnfoldsArrange(py, items, inputs, st, end.subst);
      var st1 := ExpandRegion(py, items[0].region, inputs, map[], map[], st).value;
      ArrangeIsPermutation(py, items[1..], inputs, st1, end);
      assert PlainsOf(items) == PlainsOf(items[1..]);
      ClonesFirst(st.emitted, st1.emitted, end.emitted, Arrange(py, items[1..], inputs, st1, end.subst),
                  PatchAll(PlainsOf(items), end.subst));
    }
  }

  lemma PlainFirst(n: Node, rest: seq<Node>, plains: seq<Node>, clones: seq<Node>, subst: map<IoName, NodeIO>)
    requires multiset(rest) == multiset(PatchAll(plains, subst)) + multiset(clones)
    ensures multiset([Patch(n, subst)] + rest) == multiset(PatchAll([n] + plains, subst)) + multiset(clones)
  {
    PatchAllSplit([n], plains, subst);
    assert PatchAll([n], subst) == [Patch(n, subst)];
  }

  lemma ClonesFirst(a: seq<Node>, b: seq<Node>, c: seq<Node>, rest: seq<Node>, plains: seq<Node>)
    requires a <= b <= c && multiset(rest) == multiset(plains) + multiset(c[|b|..])
    ensures multiset(b[|a|..] + rest) == multiset(plains) + multiset(c[|a|..])
  {
    assert c[|a|..] == b[|a|..] + c[|b|..];
  }

  /** Clones are flat, so patching leaves them alone. */
  lemma ClonesUnpatched(st: State, end: State)
    requires Clones(st, end) && Tidy(map[], end.subst)
    ensures PatchAll(end.emitted[|st.emitted|..], end.subst) == end.emitted[|st.emitted|..]
  {
    forall i | |st.emitted| <= i < |end.emitted| ensures Patch(end.emitted[i], end.subst) == end.emitted[i] {
      var n := end.emitted[i];
      assert Cloned(n, st.fresh_ + i - |st.emitted|);
      FlatUnpatched(n, end.subst);
    }
  }

  lemma FlatUnpatched(n: Node, subst: map<IoName, NodeIO>)
    requires FlatInputs(n) && Tidy(map[], subst)
    ensures Patch(n, subst) == n
  {
    assert ResolveInputs(n.inputs, map[], subst) == n.inputs;
  }

  /** The flat graph of an expansion, up to order. */
  lemma FlatGraphIsArranged(py: Operators, w: Workflow, items: seq<Item>, inputs: map<string, PyVal>, st: State,
                            end: State)
    requires PlainsOf(items) == w.nodes && st.emitted == w.nodes
    requires ExpandRegions(py, RegionsOf(items), inputs, st) == Ok(end) && Clones(st, end) && Tidy(map[], end.subst)
    ensures multiset(PatchAll(end.emitted, end.subst)) == multiset(Arrange(py, items, inputs, st, end.subst))
    ensures PatchAll(end.emitted, end.subst) == PatchAll(w.nodes, end.subst) + end.emitted[|st.emitted|..]
  {
    ArrangeIsPermutation(py, items, inputs, st, end);
    ClonesUnpatched(st, end);
    PatchAllSplit(w.nodes, end.emitted[|st.emitted|..], end.subst);
    assert end.emitted == w.nodes + end.emitted[|st.emitted|..];
  }

  lemma ValuationUpToOrder<V>(sem: Semantics<V>, a: seq<Node>, b: seq<Node>, val: Store<V>)
    requires multiset(a) == multiset(b)
    ensures Valuation(sem, a, val) <==> Valuation(sem, b, val)
  {
    assert forall n :: n in a <==> n in multiset(a);
    assert forall n :: n in b <==> n in multiset(b);
  }

  function Start(w: Workflow, fresh_: nat): State {
    State(map[], map[], w.nodes, fresh_)
  }

  /** Before the first item: the given values stand for themselves. */
  lemma StartReady<V>(py: Operators, sem: Semantics<V>, w: Workflow, items: seq<Item>, inputs: map<string, PyVal>,
                      fresh_: nat, end: State)
    requires ExpandRegions(py, RegionsOf(items), inputs, Start(w, fresh_)) == Ok(end)
    ensures var val := Given(sem, inputs, end.injected);
            && Ready(InputStore(sem, inputs), map[], Start(w, fresh_), val, IdsOfItems(items))
            && PlainsFresh(items, val) && Counters(sem, end.injected, val)
            && InputStore(sem, inputs).Keys == RequestNames(inputs)
  {
    RegionsGrow(py, items, inputs, Start(w, fresh_));
    assert Steps(end.injected);
  }

  /** The direct meaning of a workflow. */
  function Run<V>(py: Operators, sem: Semantics<V>, items: seq<Item>, inputs: map<string, PyVal>)
    : Result<Store<V>, Error>
  {
    RunItems(py, sem, items, inputs, InputStore(sem, inputs))
  }

  /** Everything the simulation establishes about a successful expansion, for one interpretation. */
  lemma WholeSimulation<V>(py: Operators, sem: Semantics<V>, w: Workflow, items: seq<Item>, inputs: map<string, PyVal>,
                           fresh_: nat, g: Expanded)
    returns (arranged: seq<Node>, val: Store<V>, end: State)
    requires WellScoped(w, items, inputs) && Expand(py, w, inputs, fresh_) == Ok(g)
    ensures ExpandRegions(py, w.regions, inputs, Start(w, fresh_)) == Ok(end)
    ensures g == Expanded(PatchAll(end.emitted, end.subst), RemapOutputs(w.outputs, end.subst), end.injected, end.subst)
    ensures multiset(g.nodes) == multiset(arranged) && Ordered(arranged, Given(sem, inputs, g.injected).Keys)
    ensures val == RunNodes(sem, arranged, Given(sem, inputs, g.injected))
    ensures Run(py, sem, items, inputs).Ok? && Agree(Run(py, sem, items, inputs).value, map[], g.subst, val)
    ensures Run(py, sem, items, inputs).value.Keys == ItemsDefined(items, RequestNames(inputs))
    ensures Clones(Start(w, fresh_), end) && Tidy(map[], end.subst) && Fresh(val, end.fresh_)
    ensures g.nodes == PatchAll(w.nodes, end.subst) + end.emitted[|w.nodes|..]
  {
    var st, rho := Start(w, fresh_), InputStore(sem, inputs);
    end := ExpandRegions(py, w.regions, inputs, st).value;
    StartReady(py, sem, w, items, inputs, fresh_, end);
    var rho';
    rho', val := SimItems(py, sem, items, inputs, rho, st, end, Given(sem, inputs, end.injected), IdsOfItems(items));
    arranged := Arrange(py, items, inputs, st, end.subst);
    FlatGraphIsArranged(py, w, items, inputs, st, end);
  }

  /**
   * Expansion preserves meaning. The flat graph has a run; and in every run of it, whatever the
   * operators compute, each output has the value the workflow gives it directly.
   */
  lemma ExpansionPreservesMeaning<V>(py: Operators, sem: Semantics<V>, w: Workflow, items: seq<Item>,
                                     inputs: map<string, PyVal>, fresh_: nat, g: Expanded)
    requires WellScoped(w, items, inputs) && Expand(py, w, inputs, fresh_) == Ok(g)
    ensures Run(py, sem, items, inputs).Ok?
    ensures exists val :: Solves(sem, g, inputs, val)
    ensures forall val, o | Solves(sem, g, inputs, val) && o in w.outputs ::
              && o.0 in Run(py, sem, items, inputs).value && OutputTarget(o.0, g.subst) in val
              && val[OutputTarget(o.0, g.subst)] == Run(py, sem, items, inputs).value[o.0]
  {
    var arranged, val, _ := WholeSimulation(py, sem, w, items, inputs, fresh_, g);
    RunSolves(sem, g, inputs, arranged, val);
    forall other, o | Solves(sem, g, inputs, other) && o in w.outputs
      ensures OutputTarget(o.0, g.subst) in other
      ensures other[OutputTarget(o.0, g.subst)] == Run(py, sem, items, inputs).value[o.0]
    {
      SolutionUnique(sem, g, inputs, arranged, val, other);
      assert Target(o.0, map[], g.subst) == OutputTarget(o.0, g.subst);
    }
  }

  lemma RunSolves<V>(sem: Semantics<V>, g: Expanded, inputs: map<string, PyVal>, arranged: seq<Node>, val: Store<V>)
    requires multiset(g.nodes) == multiset(arranged) && Ordered(arranged, Given(sem, inputs, g.injected).Keys)
    requires val == RunNodes(sem, arranged, Given(sem, inputs, g.injected))
    ensures Solves(sem, g, inputs, val)
  {
    RunNodesExtends(sem, arranged, Given(sem, inputs, g.injected));
    RunNodesIsValuation(sem, arranged, Given(sem, inputs, g.injected));
    ValuationUpToOrder(sem, arranged, g.nodes, val);
  }

  lemma SolutionUnique<V>(sem: Semantics<V>, g: Expanded, inputs: map<string, PyVal>, arranged: seq<Node>,
                          val: Store<V>, other: Store<V>)
    requires multiset(g.nodes) == multiset(arranged) && Ordered(arranged, Given(sem, inputs, g.injected).Keys)
    requires val == RunNodes(sem, arranged, Given(sem, inputs, g.injected)) && Solves(sem, g, inputs, other)
    ensures forall x | x in val :: x in other && other[x] == val[x]
  {
    ValuationUpToOrder(sem, arranged, g.nodes, other);
    ValuationUnique(sem, arranged, Given(sem, inputs, g.injected), other);
  }
}
