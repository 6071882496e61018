/** The expander's final check, and why every well-scoped expansion passes it. */
module ExpansionChecks {
  import opened Wrappers
  import opened Expressions
  import opened Workflows
  import opened Expansion
  import opened Interpreter
  import opened FlatGraphs
  import opened Simulation
  import opened WholeWorkflow
  import Kahn
  import Outs = ExpansionOutputs

  // ---------------------------------------------------------------- the check

  function Placeholders(r: Region): set<IoName> {
    match r
    case Loop(id, _, carryInit, _, body) =>
      {InductionVar(id)} + (set k | k in carryInit :: Carry(id, k)) + ResultNames(r) + NestedPlaceholders(body)
    case Cond(_, _, _, then_, else_) =>
      ResultNames(r) + NestedPlaceholders(then_.body)
        + match else_ case None => {} case Some(b) => NestedPlaceholders(b.body)
  }

  function NestedPlaceholders(p: Program): set<IoName> {
    match p
    case Nil => {}
    case Cons(NodeOp(_), rest) => NestedPlaceholders(rest)
    case Cons(RegionOp(r), rest) => Placeholders(r) + NestedPlaceholders(rest)
  }

  function AllPlaceholders(regions: seq<Region>): set<IoName> {
    if regions == [] then {} else Placeholders(regions[0]) + AllPlaceholders(regions[1..])
  }

  function RequestValues(inputs: map<string, PyVal>, injected: map<IoName, int>): set<IoName> {
    RequestNames(inputs) + injected.Keys
  }

  /** An edge names no placeholder, and is supplied with the request or produced by a node. */
  predicate EdgeOk(io: NodeIO, placeholders: set<IoName>, resolvable: set<IoName>, produced: set<IoName>) {
    && io.name !in placeholders
    && if io.source.INPUT? then io.name in resolvable else io.name in produced
  }

  predicate EdgesOk(n: Node, placeholders: set<IoName>, resolvable: set<IoName>, produced: set<IoName>) {
    forall k | k in n.inputs && n.inputs[k].Some? :: EdgeOk(n.inputs[k].value, placeholders, resolvable, produced)
  }

  predicate UniqueNames(nodes: seq<Node>) {
    forall i, j | 0 <= i < j < |nodes| :: nodes[i].name != nodes[j].name
  }

  /** The other nodes whose outputs a node reads. */
  function Prerequisites(n: Node, produced: set<IoName>): set<NodeName> {
    set k | k in n.inputs && n.inputs[k].Some? && n.inputs[k].value.source.NODE? && n.inputs[k].value.name in produced
            && n.inputs[k].value.name.Output? && n.inputs[k].value.name.node != n.name
          :: n.inputs[k].value.name.node
  }

  function DependencyGraph(nodes: seq<Node>, produced: set<IoName>): map<NodeName, set<NodeName>> {
    if nodes == [] then map[]
    else
      var last := nodes[|nodes| - 1];
      DependencyGraph(nodes[..|nodes| - 1], produced)[last.name := Prerequisites(last, produced)]
  }

  /** What the final check demands of an expansion. */
  ghost predicate Sound(g: Expanded, w: Workflow, inputs: map<string, PyVal>) {
    var placeholders, produced, values := AllPlaceholders(w.regions), Produces(g.nodes),
        RequestValues(inputs, g.injected);
    && UniqueNames(g.nodes)
    && (forall n | n in g.nodes :: n.name.op == n.op)
    && (forall n | n in g.nodes :: EdgesOk(n, placeholders, values + g.outputs.Keys, produced))
    && produced !! placeholders
    && g.outputs.Keys <= produced + values
    && !exists c :: Kahn.Cycle(DependencyGraph(g.nodes, produced), c)
  }

  datatype CheckError =
    | DuplicateName(node: NodeName)
    | MisnamedNode(node: NodeName)
    | BadEdge(node: NodeName)
    | PlaceholderProduced
    | OutputWithoutProducer
    | DependencyCycle(stuck: set<NodeName>)

  lemma {:induction false} GraphOfNodes(nodes: seq<Node>, produced: set<IoName>)
    ensures DependencyGraph(nodes, produced).Keys == NamesOf(nodes)
    ensures UniqueNames(nodes) ==>
              forall n | n in nodes :: DependencyGraph(nodes, produced)[n.name] == Prerequisites(n, produced)
  {
    if nodes != [] {
      var front, last := nodes[..|nodes| - 1], nodes[|nodes| - 1];
      GraphOfNodes(front, produced);
      assert nodes == front + [last];
      if UniqueNames(nodes) {
        forall n | n in front ensures n.name != last.name {
          var i :| 0 <= i < |front| && front[i] == n;
          assert nodes[i] == n;
        }
      }
    }
  }

  lemma GraphClosed(nodes: seq<Node>)
    requires UniqueNames(nodes)
    ensures Kahn.Closed(DependencyGraph(nodes, Produces(nodes)))
  {
    var produced := Produces(nodes);
    var g := DependencyGraph(nodes, produced);
    GraphOfNodes(nodes, produced);
    ProducesAll(nodes);
    forall x, d | x in g && d in g[x] ensures d in g && d != x {
      var n :| n in nodes && n.name == x;
      assert d in Prerequisites(n, produced);
      var k :| k in n.inputs && n.inputs[k].Some? && n.inputs[k].value.name in produced
          && n.inputs[k].value.name.Output?
               && n.inputs[k].value.name.node == d;
      var p :| p in nodes && n.inputs[k].value.name in OutputNames(p);
      assert p.name == d;
    }
  }

  /** The first node, if any, whose name an earlier node has. */
  method FindDuplicate(nodes: seq<Node>) returns (duplicate: Option<NodeName>)
    ensures duplicate.None? <==> UniqueNames(nodes)
  {
    var seen: set<NodeName> := {};
    for i := 0 to |nodes|
      invariant seen == NamesOf(nodes[..i]) && UniqueNames(nodes[..i])
    {
      if nodes[i].name in seen {
        var n :| n in nodes[..i] && n.name == nodes[i].name;
        return Some(nodes[i].name);
      }
      assert forall j | 0 <= j < i :: nodes[j] in nodes[..i];
      assert nodes[..i + 1] == nodes[..i] + [nodes[i]];
      seen := seen + {nodes[i].name};
    }
    assert nodes[..|nodes|] == nodes;
    return None;
  }

  method FindMisnamed(nodes: seq<Node>) returns (misnamed: Option<NodeName>)
    ensures misnamed.None? <==> forall n | n in nodes :: n.name.op == n.op
  {
    for i := 0 to |nodes|
      invariant forall n | n in nodes[..i] :: n.name.op == n.op
    {
      if nodes[i].name.op != nodes[i].op { return Some(nodes[i].name); }
      assert nodes[..i + 1] == nodes[..i] + [nodes[i]];
    }
    assert nodes[..|nodes|] == nodes;
    return None;
  }

  method FindBadEdge(nodes: seq<Node>, placeholders: set<IoName>, resolvable: set<IoName>, produced: set<IoName>)
    returns (bad: Option<NodeName>)
    ensures bad.None? <==> forall n | n in nodes :: EdgesOk(n, placeholders, resolvable, produced)
  {
    for i := 0 to |nodes|
      invariant forall n | n in nodes[..i] :: EdgesOk(n, placeholders, resolvable, produced)
    {
      if !EdgesOk(nodes[i], placeholders, resolvable, produced) { return Some(nodes[i].name); }
      assert nodes[..i + 1] == nodes[..i] + [nodes[i]];
    }
    assert nodes[..|nodes|] == nodes;
    return None;
  }

  /** _check_invariants: the first violation, in the order the expander looks for them. */
  method CheckInvariants(g: Expanded, w: Workflow, inputs: map<string, PyVal>) returns (error: Option<CheckError>)
    ensures error.None? <==> Sound(g, w, inputs)
  {
    var duplicate := FindDuplicate(g.nodes);
    if duplicate.Some? { return Some(DuplicateName(duplicate.value)); }
    var misnamed := FindMisnamed(g.nodes);
    if misnamed.Some? { return Some(MisnamedNode(misnamed.value)); }
    var produced, placeholders, values := Produces(g.nodes), AllPlaceholders(w.regions),
        RequestValues(inputs, g.injected);
    var bad := FindBadEdge(g.nodes, placeholders, values + g.outputs.Keys, produced);
    if bad.Some? { return Some(BadEdge(bad.value)); }
    if !(produced !! placeholders) { return Some(PlaceholderProduced); }
    if !(g.outputs.Keys <= produced + values) { return Some(OutputWithoutProducer); }
    GraphClosed(g.nodes);
    var ok, stuck := Kahn.CheckAcyclic(DependencyGraph(g.nodes, produced));
    return if ok then None else Some(DependencyCycle(stuck));
  }

  // ---------------------------------------------------------------- every expansion passes

  lemma {:induction false} PlaceholdersNotReal(r: Region)
    ensures forall x | x in Placeholders(r) :: !Real(x)
    decreases r, 0
  {
    match r
    case Loop(_, _, _, _, body) => NestedNotReal(body);
    case Cond(_, _, _, then_, else_) =>
      NestedNotReal(then_.body);
      if else_.Some? { NestedNotReal(else_.value.body); }
  }

  lemma {:induction false} NestedNotReal(p: Program)
    ensures forall x | x in NestedPlaceholders(p) :: !Real(x)
    decreases p, 0
  {
    match p
    case Nil =>
    case Cons(NodeOp(_), rest) => NestedNotReal(rest);
    case Cons(RegionOp(r), rest) => PlaceholdersNotReal(r); NestedNotReal(rest);
  }

  lemma {:induction false} AllNotReal(regions: seq<Region>)
    ensures forall x | x in AllPlaceholders(regions) :: !Real(x)
  {
    if regions != [] {
      PlaceholdersNotReal(regions[0]);
      AllNotReal(regions[1..]);
    }
  }

  /** In an ordered graph everything read is given or produced. */
  lemma {:induction false} OrderedReads(nodes: seq<Node>, have: set<IoName>)
    requires Ordered(nodes, have)
    ensures forall n | n in nodes :: NodeReadsIn(n, have + Produces(nodes))
  {
    if nodes != [] {
      OrderedReads(nodes[1..], have + OutputNames(nodes[0]));
      assert have + OutputNames(nodes[0]) + Produces(nodes[1..]) == have + Produces(nodes);
    }
  }

  ghost predicate SourcesFit(n: Node) {
    forall k | k in n.inputs && n.inputs[k].Some? :: SourceFits(n.inputs[k].value)
  }

  lemma {:induction false} PlainsFit(items: seq<Item>, defined: set<IoName>, ids: set<string>)
    requires ItemsScoped(items, defined, ids)
    ensures forall n | n in PlainsOf(items) :: SourcesFit(n)
  {
    if items != [] {
      PlainsFit(items[1..], defined + match items[0] case Plain(n) => OutputNames(n) case Reg(r) => ResultNames(r),
                ids);
    }
  }

  lemma PatchedFits(n: Node, subst: map<IoName, NodeIO>)
    requires SourcesFit(n) && Tidy(map[], subst)
    ensures SourcesFit(Patch(n, subst))
  {
  }

  lemma {:induction false} PlainsUnique(items: seq<Item>, defined: set<IoName>, ids: set<string>)
    requires ItemsScoped(items, defined, ids)
    ensures UniqueNames(PlainsOf(items))
  {
    if items != [] {
      var rest := PlainsOf(items[1..]);
      PlainsUnique(items[1..], defined + match items[0] case Plain(n) => OutputNames(n) case Reg(r) => ResultNames(r),
                   ids);
      if items[0].Plain? {
        assert forall i | 0 <= i < |rest| :: rest[i] in rest;
        assert PlainsOf(items) == [items[0].node] + rest;
      } else {
        assert PlainsOf(items) == rest;
      }
    }
  }

  /** Names, old and minted, do not repeat and carry their operator. */
  lemma NamesSound(w: Workflow, items: seq<Item>, inputs: map<string, PyVal>, fresh_: nat, end: State)
    requires WellScoped(w, items, inputs) && Clones(Start(w, fresh_), end)
    ensures var nodes := PatchAll(w.nodes, end.subst) + end.emitted[|w.nodes|..];
            UniqueNames(nodes) && forall n | n in nodes :: n.name.op == n.op
  {
    var nodes := PatchAll(w.nodes, end.subst) + end.emitted[|w.nodes|..];
    PlainsUnique(items, RequestNames(inputs), IdsOfItems(items));
    PlainsAuthored(items, RequestNames(inputs), IdsOfItems(items));
    forall i | 0 <= i < |nodes| ensures nodes[i].name == NameAt(w, end, i) && nodes[i].name.op == nodes[i].op {
      if i < |w.nodes| {
        assert w.nodes[i] in w.nodes;
      } else {
        assert Cloned(end.emitted[i], fresh_ + i - |w.nodes|);
      }
    }
    forall i, j | 0 <= i < j < |nodes| ensures nodes[i].name != nodes[j].name {
      if j < |w.nodes| {
        assert w.nodes[i].name != w.nodes[j].name;
      } else if i < |w.nodes| {
        assert w.nodes[i] in w.nodes;
        assert Cloned(end.emitted[j], fresh_ + j - |w.nodes|);
      } else {
        assert Cloned(end.emitted[i], fresh_ + i - |w.nodes|) && Cloned(end.emitted[j], fresh_ + j - |w.nodes|);
      }
    }
  }

  function NameAt(w: Workflow, end: State, i: nat): NodeName
    requires w.nodes <= end.emitted && i < |end.emitted|
  {
    end.emitted[i].name
  }

  lemma MembersMatch<T>(a: seq<T>, b: seq<T>)
    requires multiset(a) == multiset(b)
    ensures forall x :: x in a <==> x in b
  {
    forall x ensures x in a <==> x in b {
      assert x in multiset(a) <==> x in multiset(b);
    }
  }

  /** Every edge is supplied or produced, and none leaks a placeholder. */
  lemma EdgesSound(nodes: seq<Node>, given: set<IoName>, placeholders: set<IoName>, resolvable: set<IoName>)
    requires forall n | n in nodes :: NodeReadsIn(n, given + Produces(nodes)) && SourcesFit(n)
    requires (forall x | x in given :: x.Request? || x.Step?) && given <= resolvable
    requires forall x | x in placeholders :: !Real(x)
    ensures forall n | n in nodes :: EdgesOk(n, placeholders, resolvable, Produces(nodes))
    ensures Produces(nodes) !! placeholders
  {
    ProducesAll(nodes);
    forall n, k | n in nodes && k in n.inputs && n.inputs[k].Some?
      ensures EdgeOk(n.inputs[k].value, placeholders, resolvable, Produces(nodes))
    {
      assert n.inputs[k].value.name in given + Produces(nodes) && SourceFits(n.inputs[k].value);
    }
  }

  lemma {:induction false} OrderedReadsBefore(nodes: seq<Node>, have: set<IoName>, i: nat)
    requires Ordered(nodes, have) && i < |nodes|
    ensures NodeReadsIn(nodes[i], have + Produces(nodes[..i]))
  {
    if i > 0 {
      OrderedReadsBefore(nodes[1..], have + OutputNames(nodes[0]), i - 1);
      assert nodes[..i][1..] == nodes[1..][..i - 1];
      assert have + OutputNames(nodes[0]) + Produces(nodes[1..][..i - 1]) == have + Produces(nodes[..i]);
    }
  }

  lemma {:induction false} CountUnique(nodes: seq<Node>, n: Node)
    requires UniqueNames(nodes)
    ensures multiset(nodes)[n] <= 1
  {
    if nodes != [] {
      var front, last := nodes[..|nodes| - 1], nodes[|nodes| - 1];
      CountUnique(front, n);
      assert nodes == front + [last];
      if last == n {
        assert n !in front;
      }
    }
  }

  lemma TwiceCounted<T>(s: seq<T>, i: nat, j: nat)
    requires i < j < |s| && s[i] == s[j]
    ensures multiset(s)[s[i]] >= 2
  {
    assert s == s[..i] + [s[i]] + s[i + 1..j] + [s[j]] + s[j + 1..];
  }

  lemma UniqueUpToOrder(a: seq<Node>, b: seq<Node>)
    requires multiset(a) == multiset(b) && UniqueNames(a)
    ensures UniqueNames(b)
  {
    MembersMatch(a, b);
    forall i, j | 0 <= i < j < |b| ensures b[i].name != b[j].name {
      CountUnique(a, b[i]);
      assert b[i] in a && b[j] in a;
      if b[i] == b[j] { TwiceCounted(b, i, j); }
    }
  }

  function Names(nodes: seq<Node>): seq<NodeName> {
    seq(|nodes|, i requires 0 <= i < |nodes| => nodes[i].name)
  }

  /** The order in which the graph can run settles its dependency graph. */
  lemma OrderSettles(nodes: seq<Node>, arranged: seq<Node>, given: set<IoName>)
    requires multiset(nodes) == multiset(arranged) && Ordered(arranged, given) && UniqueNames(nodes)
    requires forall x | x in given :: x.Request? || x.Step?
    ensures var g := DependencyGraph(nodes, Produces(nodes));
            Kahn.Settled(g, Names(arranged)) && forall n | n in g :: n in Names(arranged)
  {
    var g, order := DependencyGraph(nodes, Produces(nodes)), Names(arranged);
    UniqueUpToOrder(nodes, arranged);
    forall i | 0 <= i < |order| ensures order[i] in g && forall d | d in g[order[i]] :: d in order[..i] {
      NodeSettles(nodes, arranged, given, i);
    }
    GraphOfNodes(nodes, Produces(nodes));
    SameNames(nodes, arranged);
  }

  lemma NodeSettles(nodes: seq<Node>, arranged: seq<Node>, given: set<IoName>, i: nat)
    requires multiset(nodes) == multiset(arranged) && Ordered(arranged, given) && UniqueNames(nodes) && i < |arranged|
    requires forall x | x in given :: x.Request? || x.Step?
    ensures var g, n := DependencyGraph(nodes, Produces(nodes)), arranged[i].name;
            n in g && forall d | d in g[n] :: d in Names(arranged)[..i]
  {
    var g, n := DependencyGraph(nodes, Produces(nodes)), arranged[i].name;
    GraphOfNodes(nodes, Produces(nodes));
    SameNames(nodes, arranged);
    forall d | d in g[n] ensures d in Names(arranged)[..i] {
      DependencyBefore(nodes, arranged, given, i, d);
    }
  }

  lemma SameNames(nodes: seq<Node>, arranged: seq<Node>)
    requires multiset(nodes) == multiset(arranged)
    ensures forall n | n in NamesOf(nodes) :: n in Names(arranged)
    ensures forall i | 0 <= i < |arranged| :: arranged[i] in nodes && Names(arranged)[i] in NamesOf(nodes)
  {
    MembersMatch(nodes, arranged);
    forall n | n in NamesOf(nodes) ensures n in Names(arranged) {
      var node :| node in nodes && node.name == n;
      var i :| 0 <= i < |arranged| && arranged[i] == node;
      assert Names(arranged)[i] == n;
    }
  }

  lemma DependencyBefore(nodes: seq<Node>, arranged: seq<Node>, given: set<IoName>, i: nat, d: NodeName)
    requires Ordered(arranged, given) && i < |arranged| && d in Prerequisites(arranged[i], Produces(nodes))
    requires forall x | x in given :: x.Request? || x.Step?
    ensures d in Names(arranged)[..i]
  {
    var n := arranged[i];
    OrderedReadsBefore(arranged, given, i);
    ProducesAll(arranged[..i]);
    var k :| k in n.inputs && n.inputs[k].Some? && n.inputs[k].value.name.Output? && n.inputs[k].value.name.node == d;
    var p :| p in arranged[..i] && n.inputs[k].value.name in OutputNames(p);
    var j :| 0 <= j < i && arranged[j] == p;
    assert Names(arranged)[..i][j] == d;
  }

  lemma SupportedOutputs<V>(g: Expanded, w: Workflow, items: seq<Item>, inputs: map<string, PyVal>, rho: Store<V>,
                            val: Store<V>)
    requires WellScoped(w, items, inputs) && g.outputs == RemapOutputs(w.outputs, g.subst)
    requires rho.Keys == ItemsDefined(items, RequestNames(inputs)) && Agree(rho, map[], g.subst, val)
    ensures g.outputs.Keys <= val.Keys
  {
    Outs.RemapOrigins(w.outputs, g.subst);
    forall t | t in g.outputs ensures t in val {
      var o :| o in w.outputs && OutputTarget(o.0, g.subst) == t;
      assert Target(o.0, map[], g.subst) == t;
    }
  }

  /** An interpretation that tells nothing apart; only the shape of the graph matters below. */
  const ANY: Semantics<int> := Semantics((_, _, _, _) => 0, _ => 0, _ => 0, 0, 0)

  /**
   * Every expansion of a well-scoped workflow passes the final check: unique names that carry their
   * operator, no placeholder left, every edge supplied or produced, every output there, no cycle.
   */
  lemma ExpansionIsSound(py: Operators, w: Workflow, items: seq<Item>, inputs: map<string, PyVal>, fresh_: nat,
                         g: Expanded)
    requires WellScoped(w, items, inputs) && Expand(py, w, inputs, fresh_) == Ok(g)
    ensures Sound(g, w, inputs)
  {
    var arranged, val, end := WholeSimulation(py, ANY, w, items, inputs, fresh_, g);
    RegionsGrow(py, items, inputs, Start(w, fresh_));
    NamesSound(w, items, inputs, fresh_, end);
    SupportedOutputs(g, w, items, inputs, Run(py, ANY, items, inputs).value, val);
    ReadsSound(w, items, inputs, fresh_, end, g, arranged, Given(ANY, inputs, g.injected).Keys);
    SoundFrom(g, w, inputs, arranged, val);
  }

  lemma SoundFrom(g: Expanded, w: Workflow, inputs: map<string, PyVal>, arranged: seq<Node>, val: Store<int>)
    requires UniqueNames(g.nodes) && forall n | n in g.nodes :: n.name.op == n.op
    requires Steps(g.injected) && multiset(g.nodes) == multiset(arranged)
    requires Ordered(arranged, Given(ANY, inputs, g.injected).Keys)
               && val == RunNodes(ANY, arranged, Given(ANY, inputs, g.injected))
    requires forall n | n in g.nodes ::
               NodeReadsIn(n, Given(ANY, inputs, g.injected).Keys + Produces(g.nodes)) && SourcesFit(n)
    requires g.outputs.Keys <= val.Keys
    ensures Sound(g, w, inputs)
  {
    var given := Given(ANY, inputs, g.injected);
    assert given.Keys == RequestValues(inputs, g.injected);
    AllNotReal(w.regions);
    RunNodesExtends(ANY, arranged, given);
    SameProduces(g.nodes, arranged);
    EdgesSound(g.nodes, given.Keys, AllPlaceholders(w.regions), RequestValues(inputs, g.injected) + g.outputs.Keys);
    NoCycle(g.nodes, arranged, given.Keys);
  }

  lemma SameProduces(a: seq<Node>, b: seq<Node>)
    requires multiset(a) == multiset(b)
    ensures Produces(a) == Produces(b)
  {
    ProducesAll(a);
    ProducesAll(b);
    MembersMatch(a, b);
  }

  lemma ReadsSound(w: Workflow, items: seq<Item>, inputs: map<string, PyVal>, fresh_: nat, end: State, g: Expanded,
                   arranged: seq<Node>, given: set<IoName>)
    requires WellScoped(w, items, inputs) && Clones(Start(w, fresh_), end) && Tidy(map[], end.subst)
    requires g.nodes == PatchAll(w.nodes, end.subst) + end.emitted[|w.nodes|..]
    requires multiset(g.nodes) == multiset(arranged) && Ordered(arranged, given)
    ensures forall n | n in g.nodes :: NodeReadsIn(n, given + Produces(g.nodes)) && SourcesFit(n)
  {
    OrderedReads(arranged, given);
    SameProduces(g.nodes, arranged);
    MembersMatch(g.nodes, arranged);
    PlainsFit(items, RequestNames(inputs), IdsOfItems(items));
    forall i | 0 <= i < |g.nodes| ensures SourcesFit(g.nodes[i]) {
      if i < |w.nodes| {
        assert w.nodes[i] in w.nodes;
        PatchedFits(w.nodes[i], end.subst);
      } else {
        assert Cloned(end.emitted[i], fresh_ + i - |w.nodes|);
      }
    }
  }

  lemma NoCycle(nodes: seq<Node>, arranged: seq<Node>, given: set<IoName>)
    requires multiset(nodes) == multiset(arranged) && Ordered(arranged, given) && UniqueNames(nodes)
    requires forall x | x in given :: x.Request? || x.Step?
    ensures !exists c :: Kahn.Cycle(DependencyGraph(nodes, Produces(nodes)), c)
  {
    var g := DependencyGraph(nodes, Produces(nodes));
    OrderSettles(nodes, arranged, given);
    forall c ensures !Kahn.Cycle(g, c) {
      Kahn.SettledHasNoCycle(g, Names(arranged), c);
    }
  }
}
