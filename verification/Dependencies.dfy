/** The analyses of a workflow's graph, as loops over its node list. */
module Dependencies {
  import opened Wrappers
  import opened TaskGraphs

  function Elements(nodes: seq<NodeId>): set<NodeId> {
    set n | n in nodes
  }

  /** `nodes` lists the nodes of one request. */
  ghost predicate NodeList(g: Graph, request: nat, nodes: seq<NodeId>) {
    Elements(nodes) == NodesOf(g, request)
  }

  function Wanted(n: Node, lazyOnly: bool): set<TensorId> {
    if lazyOnly then LazySet(n) else ReadSet(n)
  }

  /** The nodes among `others` that feed `n` through an input in `keys`. */
  ghost function FedBy(g: Graph, n: NodeId, keys: set<string>, lazyOnly: bool, others: set<NodeId>): set<NodeId>
    requires n in g
  {
    set m, k | m in others && m in g && m != n && k in keys && k in g[n].inputs && g[n].inputs[k].produced
               && (lazyOnly ==> g[n].inputs[k].late) && g[n].inputs[k].tensor in g[m].outputs :: m
  }

  lemma FedByAll(g: Graph, request: nat, n: NodeId, lazyOnly: bool)
    requires n in g && n.request == request
    ensures FedBy(g, n, g[n].inputs.Keys, lazyOnly, NodesOf(g, request)) == ProducersOf(g, n, Wanted(g[n], lazyOnly))
  {
    forall m | m in ProducersOf(g, n, Wanted(g[n], lazyOnly))
      ensures m in FedBy(g, n, g[n].inputs.Keys, lazyOnly, NodesOf(g, request))
    {
      var t :| t in g[m].outputs * Wanted(g[n], lazyOnly);
      var k :| k in g[n].inputs && g[n].inputs[k].produced && (lazyOnly ==> g[n].inputs[k].late)
          && g[n].inputs[k].tensor == t;
    }
    forall m | m in FedBy(g, n, g[n].inputs.Keys, lazyOnly, NodesOf(g, request))
      ensures m in ProducersOf(g, n, Wanted(g[n], lazyOnly))
    {
      var k :| k in g[n].inputs && g[n].inputs[k].produced && (lazyOnly ==> g[n].inputs[k].late)
          && g[n].inputs[k].tensor in g[m].outputs;
      assert g[n].inputs[k].tensor in g[m].outputs * Wanted(g[n], lazyOnly);
    }
  }

  /** The producers of one input, by search through all nodes. */
  method ProducersOfInput(g: Graph, nodes: seq<NodeId>, n: NodeId, t: TensorId) returns (found: set<NodeId>)
    requires n in g && forall m | m in nodes :: m in g
    ensures found == set m | m in nodes && m != n && t in g[m].outputs
  {
    found := {};
    for i := 0 to |nodes|
      invariant found == set m | m in nodes[..i] && m != n && t in g[m].outputs
    {
      assert nodes[..i + 1] == nodes[..i] + [nodes[i]];
      if nodes[i] != n && t in g[nodes[i]].outputs {
        found := found + {nodes[i]};
      }
    }
    assert nodes[..|nodes|] == nodes;
  }

  method DependenciesOfNode(g: Graph, nodes: seq<NodeId>, n: NodeId, lazyOnly: bool) returns (deps: set<NodeId>)
    requires n in g && forall m | m in nodes :: m in g
    ensures deps == FedBy(g, n, g[n].inputs.Keys, lazyOnly, Elements(nodes))
  {
    hide FedBy;
    deps := {};
    var keys := g[n].inputs.Keys;
    ghost var seen: set<string> := {};
    NothingFeeds(g, n, lazyOnly, Elements(nodes));
    while keys != {}
      invariant keys + seen == g[n].inputs.Keys
      invariant deps == FedBy(g, n, seen, lazyOnly, Elements(nodes))
      decreases |keys|
    {
      var k :| k in keys;
      keys := keys - {k};
      var input := g[n].inputs[k];
      if input.produced && (lazyOnly ==> input.late) {
        var found := ProducersOfInput(g, nodes, n, input.tensor);
        deps := deps + found;
      }
      FedByMore(g, n, seen, k, lazyOnly, Elements(nodes));
      seen := seen + {k};
    }
    assert seen == g[n].inputs.Keys;
  }

  lemma NothingFeeds(g: Graph, n: NodeId, lazyOnly: bool, others: set<NodeId>)
    requires n in g
    ensures FedBy(g, n, {}, lazyOnly, others) == {}
  {
  }

  lemma FedByMore(g: Graph, n: NodeId, seen: set<string>, k: string, lazyOnly: bool, others: set<NodeId>)
    requires n in g && k in g[n].inputs
    ensures FedBy(g, n, seen + {k}, lazyOnly, others) == FedBy(g, n, seen, lazyOnly, others)
              + if g[n].inputs[k].produced && (lazyOnly ==> g[n].inputs[k].late)
                then set m | m in others && m in g && m != n && g[n].inputs[k].tensor in g[m].outputs else {}
  {
  }

  /** get_node_dependencies: each node's producers; with `lazyOnly`, those of its lazy inputs. */
  method GetNodeDependencies(g: Graph, request: nat, nodes: seq<NodeId>, lazyOnly: bool)
    returns (deps: map<NodeId, set<NodeId>>)
    requires NodeList(g, request, nodes)
    ensures deps.Keys == NodesOf(g, request)
    ensures forall n | n in deps :: deps[n] == ProducersOf(g, n, Wanted(g[n], lazyOnly))
  {
    assert forall m | m in nodes :: m in Elements(nodes);
    deps := map[];
    for i := 0 to |nodes|
      invariant deps.Keys == Elements(nodes[..i])
      invariant forall n | n in deps :: n in g && deps[n] == ProducersOf(g, n, Wanted(g[n], lazyOnly))
    {
      assert nodes[i] in Elements(nodes);
      var found := DependenciesOfNode(g, nodes, nodes[i], lazyOnly);
      FedByAll(g, request, nodes[i], lazyOnly);
      deps := deps[nodes[i] := found];
      assert nodes[..i + 1] == nodes[..i] + [nodes[i]];
    }
    assert nodes[..|nodes|] == nodes;
  }

  /** The inputs in `keys` of node `n` that read `t`. */
  ghost function ReadersAmong(g: Graph, n: NodeId, keys: set<string>, t: TensorId): set<(NodeId, string)>
    requires n in g
  {
    set k | k in keys && k in g[n].inputs && g[n].inputs[k].produced && g[n].inputs[k].tensor == t :: (n, k)
  }

  lemma ReadersAmongMore(g: Graph, n: NodeId, keys: set<string>, k: string, t: TensorId)
    requires n in g && k in g[n].inputs && k !in keys
    ensures |ReadersAmong(g, n, keys + {k}, t)|
            == |ReadersAmong(g, n, keys, t)| + if g[n].inputs[k].produced && g[n].inputs[k].tensor == t then 1 else 0
  {
    if g[n].inputs[k].produced && g[n].inputs[k].tensor == t {
      assert ReadersAmong(g, n, keys + {k}, t) == ReadersAmong(g, n, keys, t) + {(n, k)};
    } else {
      assert ReadersAmong(g, n, keys + {k}, t) == ReadersAmong(g, n, keys, t);
    }
  }

  lemma ReadersAmongAll(g: Graph, n: NodeId, t: TensorId)
    requires n in g
    ensures ReadersAmong(g, n, g[n].inputs.Keys, t) == ReadersOf(g, {n}, t)
  {
  }

  /** Counts after the inputs in `keys` of `n` have been added to those of `before`. */
  ghost predicate Counted(g: Graph, before: set<NodeId>, n: NodeId, keys: set<string>, counts: map<TensorId, int>)
    requires n in g && before <= g.Keys
  {
    && (forall t :: t in counts <==> |ReadersOf(g, before, t)| + |ReadersAmong(g, n, keys, t)| > 0)
    && forall t | t in counts :: counts[t] == |ReadersOf(g, before, t)| + |ReadersAmong(g, n, keys, t)|
  }

  method CountInputs(g: Graph, ghost before: set<NodeId>, n: NodeId, counts0: map<TensorId, int>)
    returns (counts: map<TensorId, int>)
    requires n in g && before <= g.Keys && Counted(g, before, n, {}, counts0)
    ensures Counted(g, before, n, g[n].inputs.Keys, counts)
  {
    hide Counted;
    counts := counts0;
    var keys := g[n].inputs.Keys;
    ghost var seen: set<string> := {};
    while keys != {}
      invariant keys + seen == g[n].inputs.Keys && keys !! seen
      invariant Counted(g, before, n, seen, counts)
      decreases |keys|
    {
      var k :| k in keys;
      keys := keys - {k};
      var input := g[n].inputs[k];
      ghost var old_ := counts;
      if input.produced {
        counts := counts[input.tensor := if input.tensor !in counts then 1 else counts[input.tensor] + 1];
      }
      CountedMore(g, before, n, seen, k, old_, counts);
      seen := seen + {k};
    }
    assert seen == g[n].inputs.Keys;
  }

  lemma CountedMore(g: Graph, before: set<NodeId>, n: NodeId, seen: set<string>, k: string, counts: map<TensorId, int>,
                    counts': map<TensorId, int>)
    requires n in g && before <= g.Keys && k in g[n].inputs && k !in seen && Counted(g, before, n, seen, counts)
    requires counts' == if g[n].inputs[k].produced
                        then counts[g[n].inputs[k].tensor :=
                                    if g[n].inputs[k].tensor !in counts then 1 else counts[g[n].inputs[k].tensor] + 1]
                        else counts
    ensures Counted(g, before, n, seen + {k}, counts')
  {
    hide ReadersOf, ReadersAmong;
    forall t
      ensures t in counts' <==> |ReadersOf(g, before, t)| + |ReadersAmong(g, n, seen + {k}, t)| > 0
      ensures t in counts' ==> counts'[t] == |ReadersOf(g, before, t)| + |ReadersAmong(g, n, seen + {k}, t)|
    {
      ReadersAmongMore(g, n, seen, k, t);
      assert t in counts <==> |ReadersOf(g, before, t)| + |ReadersAmong(g, n, seen, t)| > 0;
    }
  }

  lemma CountedNext(g: Graph, before: set<NodeId>, n: NodeId, counts: map<TensorId, int>)
    requires n in g && before <= g.Keys && n !in before && Counted(g, before, n, g[n].inputs.Keys, counts)
    ensures forall m | m in g :: Counted(g, before + {n}, m, {}, counts)
  {
    forall t
      ensures |ReadersOf(g, before + {n}, t)| == |ReadersOf(g, before, t)| + |ReadersAmong(g, n, g[n].inputs.Keys, t)|
    {
      ReadersSplit(g, before + {n}, n, t);
      assert before + {n} - {n} == before;
      ReadersAmongAll(g, n, t);
    }
    forall m, t | m in g ensures |ReadersAmong(g, m, {}, t)| == 0 {
      assert ReadersAmong(g, m, {}, t) == {};
    }
  }

  /** build_tensor_reference_count: for each tensor, how many inputs of the workflow's nodes read it. */
  method BuildTensorReferenceCount(g: Graph, nodes: seq<NodeId>) returns (counts: map<TensorId, int>)
    requires (forall n | n in nodes :: n in g) && forall i, j | 0 <= i < j < |nodes| :: nodes[i] != nodes[j]
    ensures forall t :: t in counts <==> |ReadersOf(g, Elements(nodes), t)| > 0
    ensures forall t | t in counts :: counts[t] == |ReadersOf(g, Elements(nodes), t)|
  {
    counts := map[];
    NothingCounted(g);
    for i := 0 to |nodes|
      invariant Elements(nodes[..i]) <= g.Keys && (i == 0 ==> counts == map[])
      invariant forall m | m in g :: Counted(g, Elements(nodes[..i]), m, {}, counts)
    {
      assert nodes[i] in nodes;
      counts := CountInputs(g, Elements(nodes[..i]), nodes[i], counts);
      CountedNext(g, Elements(nodes[..i]), nodes[i], counts);
      assert nodes[..i + 1] == nodes[..i] + [nodes[i]];
      assert Elements(nodes[..i + 1]) == Elements(nodes[..i]) + {nodes[i]};
    }
    assert nodes[..|nodes|] == nodes;
    CountedEnd(g, nodes, counts);
  }

  lemma NothingCounted(g: Graph)
    ensures forall m | m in g :: Counted(g, Elements([]), m, {}, map[])
  {
    forall m, t | m in g ensures |ReadersOf(g, Elements([]), t)| + |ReadersAmong(g, m, {}, t)| == 0 {
      assert ReadersOf(g, Elements([]), t) == {} && ReadersAmong(g, m, {}, t) == {};
    }
  }

  lemma CountedEnd(g: Graph, nodes: seq<NodeId>, counts: map<TensorId, int>)
    requires Elements(nodes) <= g.Keys && forall m | m in g :: Counted(g, Elements(nodes), m, {}, counts)
    requires nodes == [] ==> counts == map[]
    ensures forall t :: t in counts <==> |ReadersOf(g, Elements(nodes), t)| > 0
    ensures forall t | t in counts :: counts[t] == |ReadersOf(g, Elements(nodes), t)|
  {
    if nodes == [] {
      forall t ensures ReadersOf(g, Elements(nodes), t) == {} {}
    } else {
      var m := nodes[0];
      assert m in Elements(nodes);
      forall t ensures |ReadersAmong(g, m, {}, t)| == 0 {
        assert ReadersAmong(g, m, {}, t) == {};
      }
    }
  }
}
