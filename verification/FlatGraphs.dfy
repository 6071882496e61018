/** Flat graphs in topological order have exactly one valuation. */
module FlatGraphs {
  import opened Wrappers
  import opened Workflows
  import opened Interpreter

  lemma {:induction false} RunNodesExtends<V>(sem: Semantics<V>, nodes: seq<Node>, val: Store<V>)
    requires Ordered(nodes, val.Keys)
    ensures RunNodes(sem, nodes, val).Keys == val.Keys + Produces(nodes)
    ensures forall x | x in val :: RunNodes(sem, nodes, val)[x] == val[x]
  {
    if nodes != [] {
      RunNodesExtends(sem, nodes[1..], RunNode(sem, nodes[0], val));
    }
  }

  lemma ArgumentsAgree<V>(sem: Semantics<V>, n: Node, val: Store<V>, val': Store<V>)
    requires NodeReadsIn(n, val.Keys)
    requires forall x | x in val :: x in val' && val'[x] == val[x]
    ensures Arguments(sem, n.inputs, val) == Arguments(sem, n.inputs, val')
  {
  }

  /** Running the nodes in order solves all their equations. */
  lemma {:induction false} RunNodesIsValuation<V>(sem: Semantics<V>, nodes: seq<Node>, val: Store<V>)
    requires Ordered(nodes, val.Keys)
    ensures Valuation(sem, nodes, RunNodes(sem, nodes, val))
  {
    if nodes != [] {
      var val1, val' := RunNode(sem, nodes[0], val), RunNodes(sem, nodes, val);
      RunNodesIsValuation(sem, nodes[1..], val1);
      RunNodesExtends(sem, nodes[1..], val1);
      ArgumentsAgree(sem, nodes[0], val, val');
    }
  }

  /** Any solution that starts from the same given values is the one found by running in order. */
  lemma {:induction false} ValuationUnique<V>(sem: Semantics<V>, nodes: seq<Node>, val: Store<V>, other: Store<V>)
    requires Ordered(nodes, val.Keys) && Valuation(sem, nodes, other)
    requires forall x | x in val :: x in other && other[x] == val[x]
    ensures forall x | x in RunNodes(sem, nodes, val) :: x in other && other[x] == RunNodes(sem, nodes, val)[x]
  {
    if nodes != [] {
      ArgumentsAgree(sem, nodes[0], val, other);
      assert nodes[0] in nodes;
      ValuationUnique(sem, nodes[1..], RunNode(sem, nodes[0], val), other);
    }
  }

  lemma {:induction false} OrderedAppend<V>(sem: Semantics<V>, a: seq<Node>, b: seq<Node>, val: Store<V>)
    requires Ordered(a, val.Keys) && Ordered(b, RunNodes(sem, a, val).Keys)
    ensures Ordered(a + b, val.Keys) && RunNodes(sem, a + b, val) == RunNodes(sem, b, RunNodes(sem, a, val))
  {
    if a == [] {
      assert a + b == b;
    } else {
      assert (a + b)[1..] == a[1..] + b;
      OrderedAppend(sem, a[1..], b, RunNode(sem, a[0], val));
    }
  }

  lemma {:induction false} ProducesAll(nodes: seq<Node>)
    ensures forall x :: x in Produces(nodes) <==> exists n :: n in nodes && x in OutputNames(n)
  {
    if nodes != [] {
      ProducesAll(nodes[1..]);
    }
  }
}
