/** Task graphs of requests and the dependency analyses the coordinator keeps about them. */
module TaskGraphs {
  import opened Wrappers

  type Worker = nat

  datatype NodeId = NodeId(request: nat, name: nat)

  /** A value a node outputs, by name within its request. */
  datatype TensorId = TensorId(request: nat, name: nat)

  /** `produced`: comes from a node rather than with the request; `late`: a lazy input. */
  datatype Input = Input(tensor: TensorId, produced: bool, late: bool)

  datatype Node = Node(inputs: map<string, Input>, outputs: set<TensorId>)

  /** The nodes of every request that will ever arrive. */
  type Graph = map<NodeId, Node>

  function ReadSet(n: Node): set<TensorId> {
    set k | k in n.inputs && n.inputs[k].produced :: n.inputs[k].tensor
  }

  function LazySet(n: Node): set<TensorId> {
    set k | k in n.inputs && n.inputs[k].produced && n.inputs[k].late :: n.inputs[k].tensor
  }

  function EagerSet(n: Node): set<TensorId> {
    set k | k in n.inputs && n.inputs[k].produced && !n.inputs[k].late :: n.inputs[k].tensor
  }

  /** The other nodes of the request that output one of `tensors`. */
  function ProducersOf(g: Graph, n: NodeId, tensors: set<TensorId>): set<NodeId> {
    set m | m in g && m != n && m.request == n.request && g[m].outputs * tensors != {}
  }

  function Prerequisites(g: Graph, n: NodeId): set<NodeId>
    requires n in g
  {
    ProducersOf(g, n, ReadSet(g[n]))
  }

  function LazyPrerequisites(g: Graph, n: NodeId): set<NodeId>
    requires n in g
  {
    ProducersOf(g, n, LazySet(g[n]))
  }

  /** What a node waits for before it is queued: all its producers less those it reads lazily. */
  function NonLazyPrerequisites(g: Graph, n: NodeId): set<NodeId>
    requires n in g
  {
    Prerequisites(g, n) - LazyPrerequisites(g, n)
  }

  function Successors(g: Graph, n: NodeId): set<NodeId> {
    set m | m in g && n in Prerequisites(g, m)
  }

  function NodesOf(g: Graph, request: nat): set<NodeId> {
    set n | n in g && n.request == request
  }

  /** Every tensor has one producer, another node of the same request. */
  ghost predicate WellFormed(g: Graph) {
    && (forall m, n | m in g && n in g && m != n :: g[m].outputs !! g[n].outputs)
    && (forall n, t | n in g && t in g[n].outputs :: t.request == n.request)
    && (forall n, t | n in g && t in ReadSet(g[n]) :: t.request == n.request && HasProducer(g, n, t))
  }

  ghost predicate HasProducer(g: Graph, n: NodeId, t: TensorId) {
    exists m :: m in g && m != n && m.request == n.request && t in g[m].outputs
  }

  /** No producer feeds one consumer both lazily and not. */
  ghost predicate Separate(g: Graph) {
    forall n | n in g :: SeparateAt(g, n)
  }

  /** No node reads tensors of its request lazily only. */
  ghost predicate Composes(g: Graph) {
    forall n | n in g :: LazySet(g[n]) == {} || EagerSet(g[n]) != {}
  }

  ghost predicate SeparateAt(g: Graph, n: NodeId)
    requires n in g
  {
    ProducersOf(g, n, LazySet(g[n])) !! ProducersOf(g, n, EagerSet(g[n]))
  }

  /**
   * A node's queueing condition covers exactly its non-lazy producers when none of them also feeds it
   * lazily, and only then.
   */
  lemma NonLazyIsExact(g: Graph, n: NodeId)
    requires n in g
    ensures NonLazyPrerequisites(g, n) == ProducersOf(g, n, EagerSet(g[n])) <==> SeparateAt(g, n)
  {
    assert ReadSet(g[n]) == LazySet(g[n]) + EagerSet(g[n]);
    forall m | m in g
      ensures g[m].outputs * ReadSet(g[n]) != {} <==>
                g[m].outputs * LazySet(g[n]) != {} || g[m].outputs * EagerSet(g[n]) != {}
    {
      assert g[m].outputs * ReadSet(g[n]) == g[m].outputs * LazySet(g[n]) + g[m].outputs * EagerSet(g[n]);
    }
    assert Prerequisites(g, n) == ProducersOf(g, n, LazySet(g[n])) + ProducersOf(g, n, EagerSet(g[n]));
  }

  /** One producer with a lazily and a non-lazily read output: its consumer is queued before it has run. */
  function MixedGraph(): Graph {
    var eager, late := TensorId(0, 0), TensorId(0, 1);
    map[NodeId(0, 0) := Node(map[], {eager, late}),
        NodeId(0, 1) := Node(map["x" := Input(eager, true, false), "y" := Input(late, true, true)], {})]
  }

  lemma MixedProducerIsNotAwaited()
    ensures WellFormed(MixedGraph())
    ensures NonLazyPrerequisites(MixedGraph(), NodeId(0, 1)) == {}
    ensures NodeId(0, 0) in ProducersOf(MixedGraph(), NodeId(0, 1), EagerSet(MixedGraph()[NodeId(0, 1)]))
  {
    var g, p, c := MixedGraph(), NodeId(0, 0), NodeId(0, 1);
    var eager, late := TensorId(0, 0), TensorId(0, 1);
    assert g[c].inputs["x"] == Input(eager, true, false) && g[c].inputs["y"] == Input(late, true, true);
    assert ReadSet(g[c]) == {eager, late} && LazySet(g[c]) == {late} && EagerSet(g[c]) == {eager}
        && ReadSet(g[p]) == {};
    assert eager in g[p].outputs * EagerSet(g[c]) && late in g[p].outputs * LazySet(g[c])
        && late in g[p].outputs * ReadSet(g[c]);
    assert HasProducer(g, c, eager) && HasProducer(g, c, late);
  }

  /** Non-lazy producers of a separate graph are awaited. */
  lemma EagerProducerAwaited(g: Graph, n: NodeId, t: TensorId)
    requires WellFormed(g) && n in g && SeparateAt(g, n) && t in EagerSet(g[n])
    ensures exists m :: m in NonLazyPrerequisites(g, n) && t in g[m].outputs
  {
    NonLazyIsExact(g, n);
    assert t in ReadSet(g[n]) && HasProducer(g, n, t);
    var m :| m in g && m != n && m.request == n.request && t in g[m].outputs;
    assert t in g[m].outputs * EagerSet(g[n]);
  }

  // ---------------------------------------------------------------- reference counts

  /** The inputs that read `t`, of nodes in `nodes`. */
  ghost function ReadersOf(g: Graph, nodes: set<NodeId>, t: TensorId): set<(NodeId, string)>
    requires nodes <= g.Keys
  {
    set n, k | n in nodes && k in g[n].inputs && g[n].inputs[k].produced && g[n].inputs[k].tensor == t :: (n, k)
  }

  lemma ReadersSplit(g: Graph, nodes: set<NodeId>, n: NodeId, t: TensorId)
    requires nodes <= g.Keys && n in nodes
    ensures |ReadersOf(g, nodes, t)| == |ReadersOf(g, nodes - {n}, t)| + |ReadersOf(g, {n}, t)|
  {
    assert ReadersOf(g, nodes, t) == ReadersOf(g, nodes - {n}, t) + ReadersOf(g, {n}, t);
    assert ReadersOf(g, nodes - {n}, t) !! ReadersOf(g, {n}, t);
  }

  lemma ReaderCounts(g: Graph, nodes: set<NodeId>, n: NodeId, t: TensorId)
    requires nodes <= g.Keys && n in nodes && t in ReadSet(g[n])
    ensures |ReadersOf(g, nodes, t)| > 0
  {
    var k :| k in g[n].inputs && g[n].inputs[k].produced && g[n].inputs[k].tensor == t;
    assert (n, k) in ReadersOf(g, nodes, t);
  }

  lemma NoReader(g: Graph, nodes: set<NodeId>, t: TensorId)
    requires nodes <= g.Keys && |ReadersOf(g, nodes, t)| == 0
    ensures forall n | n in nodes :: t !in ReadSet(g[n])
  {
    forall n | n in nodes ensures t !in ReadSet(g[n]) {
      if t in ReadSet(g[n]) { ReaderCounts(g, nodes, n, t); }
    }
  }
}
