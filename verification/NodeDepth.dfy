/** Depth of each node counted back from the sinks, by breadth-first search from all sinks at once. */
module NodeDepth {
  import opened Wrappers
  import Kahn

  type Graph<!T(==)> = map<T, set<T>>

  /** From `n` some sink is at most `k` steps away. */
  ghost predicate Within<T>(succ: Graph<T>, n: T, k: nat)
    decreases k
  {
    n in succ && (succ[n] == {} || (k > 0 && exists m :: m in succ[n] && Within(succ, m, k - 1)))
  }

  /** `d` is one plus the shortest distance to a sink. */
  ghost predicate Exact<T>(succ: Graph<T>, n: T, d: nat) {
    d >= 1 && Within(succ, n, d - 1) && (d >= 2 ==> !Within(succ, n, d - 2))
  }

  lemma {:induction false} WithinMore<T>(succ: Graph<T>, n: T, k: nat, k': nat)
    requires Within(succ, n, k) && k <= k'
    ensures Within(succ, n, k')
    decreases k
  {
    if succ[n] != {} {
      var m :| m in succ[n] && Within(succ, m, k - 1);
      WithinMore(succ, m, k - 1, k' - 1);
    }
  }

  lemma ExactIsLeast<T>(succ: Graph<T>, n: T, d: nat, k: nat)
    requires Exact(succ, n, d) && Within(succ, n, k)
    ensures d <= k + 1
  {
    if k + 2 <= d { WithinMore(succ, n, k, d - 2); }
  }

  /** The two maps are each other's reverse, over the same nodes. */
  ghost predicate Reversed<T>(pre: Graph<T>, succ: Graph<T>) {
    && pre.Keys == succ.Keys
    && (forall n, m | n in succ && m in succ[n] :: m in pre && n in pre[m])
    && (forall n, m | m in pre && n in pre[m] :: n in succ && m in succ[n])
  }

  // ---------------------------------------------------------------- the search

  ghost predicate Sorted<T>(queue: seq<(T, nat)>) {
    && (forall i, j | 0 <= i < j < |queue| :: queue[i].1 <= queue[j].1)
    && (forall i | 0 <= i < |queue| :: queue[i].1 <= queue[0].1 + 1)
  }

  /** Entries are upper bounds; settled nodes are exact, and none lies deeper than what is queued. */
  ghost predicate Settled<T>(succ: Graph<T>, depth: map<T, nat>, queue: seq<(T, nat)>) {
    && (forall e | e in queue :: e.1 >= 1 && Within(succ, e.0, e.1 - 1))
    && (forall n | n in depth :: n in succ && Exact(succ, n, depth[n]))
    && (queue != [] ==> forall n | n in depth :: depth[n] <= queue[0].1)
  }

  /** Every sink, and every prerequisite of a settled node, is settled or queued. */
  ghost predicate Covered<T>(succ: Graph<T>, depth: map<T, nat>, queue: seq<(T, nat)>) {
    && (forall n | n in succ && succ[n] == {} :: n in depth || (n, 1) in queue)
    && (forall n, m | n in succ && m in succ[n] && m in depth :: n in depth || (n, depth[m] + 1) in queue)
  }

  /** A node not settled has an entry within its distance, its own or another's. */
  lemma {:induction false} QueuedWithin<T>(succ: Graph<T>, depth: map<T, nat>, queue: seq<(T, nat)>, n: T, k: nat)
    returns (e: (T, nat))
    requires Settled(succ, depth, queue) && Covered(succ, depth, queue) && Within(succ, n, k) && n !in depth
    ensures e in queue && e.1 <= k + 1
    decreases k
  {
    if succ[n] == {} {
      e := (n, 1);
    } else {
      var m :| m in succ[n] && Within(succ, m, k - 1);
      if m in depth {
        ExactIsLeast(succ, m, depth[m], k - 1);
        e := (n, depth[m] + 1);
      } else {
        e := QueuedWithin(succ, depth, queue, m, k - 1);
      }
    }
  }

  /** The head of the queue is exact when its node is not settled. */
  lemma HeadExact<T>(succ: Graph<T>, depth: map<T, nat>, queue: seq<(T, nat)>)
    requires Settled(succ, depth, queue) && Covered(succ, depth, queue) && Sorted(queue)
    requires queue != [] && queue[0].0 !in depth
    ensures Exact(succ, queue[0].0, queue[0].1)
  {
    var (n, d) := queue[0];
    assert queue[0] in queue;
    if d >= 2 && Within(succ, n, d - 2) {
      var e := QueuedWithin(succ, depth, queue, n, d - 2);
    }
  }

  lemma SkipHead<T>(succ: Graph<T>, depth: map<T, nat>, queue: seq<(T, nat)>)
    requires Settled(succ, depth, queue) && Covered(succ, depth, queue) && Sorted(queue)
    requires queue != [] && queue[0].0 in depth
    ensures Settled(succ, depth, queue[1..]) && Covered(succ, depth, queue[1..]) && Sorted(queue[1..])
  {
    assert queue == [queue[0]] + queue[1..];
    assert forall e | e in queue[1..] :: e in queue;
    forall e | e in queue && e.0 !in depth ensures e in queue[1..] {}
    SortedTail(queue);
  }

  lemma SortedTail<T>(queue: seq<(T, nat)>)
    requires Sorted(queue) && queue != []
    ensures Sorted(queue[1..]) && (queue[1..] != [] ==> queue[0].1 <= queue[1..][0].1)
  {
    forall i | 0 <= i < |queue[1..]| ensures queue[1..][i] == queue[i + 1] {}
  }

  lemma SettleHead<T>(succ: Graph<T>, depth: map<T, nat>, queue: seq<(T, nat)>, added: seq<(T, nat)>)
    requires Settled(succ, depth, queue) && Covered(succ, depth, queue) && Sorted(queue)
    requires queue != [] && queue[0].0 !in depth
    requires forall e | e in added :: e.1 == queue[0].1 + 1 && e.0 in succ && queue[0].0 in succ[e.0]
    requires forall p | p in succ && queue[0].0 in succ[p] && p !in depth && p != queue[0].0 ::
               (p, queue[0].1 + 1) in added
    ensures var (n, d) := queue[0];
            Settled(succ, depth[n := d], queue[1..] + added) && Covered(succ, depth[n := d], queue[1..] + added)
              && Sorted(queue[1..] + added)
  {
    HeadExact(succ, depth, queue);
    SettledAfter(succ, depth, queue, added);
    CoveredAfter(succ, depth, queue, added);
  }

  lemma SettledAfter<T>(succ: Graph<T>, depth: map<T, nat>, queue: seq<(T, nat)>, added: seq<(T, nat)>)
    requires Settled(succ, depth, queue) && Sorted(queue) && queue != [] && Exact(succ, queue[0].0, queue[0].1)
    requires forall e | e in added :: e.1 == queue[0].1 + 1 && e.0 in succ && queue[0].0 in succ[e.0]
    ensures Settled(succ, depth[queue[0].0 := queue[0].1], queue[1..] + added) && Sorted(queue[1..] + added)
  {
    var d, rest := queue[0].1, queue[1..] + added;
    assert queue == [queue[0]] + queue[1..];
    forall e | e in added ensures Within(succ, e.0, e.1 - 1) {
      assert queue[0].0 in succ[e.0] && Within(succ, queue[0].0, d - 1);
    }
    hide Within, Exact;
    SortedAfter(queue, added);
  }

  lemma SortedAfter<T>(queue: seq<(T, nat)>, added: seq<(T, nat)>)
    requires Sorted(queue) && queue != [] && forall e | e in added :: e.1 == queue[0].1 + 1
    ensures Sorted(queue[1..] + added) && forall e | e in queue[1..] + added :: e.1 >= queue[0].1
  {
    var d, rest := queue[0].1, queue[1..] + added;
    forall i | 0 <= i < |rest| ensures d <= rest[i].1 <= d + 1 {
      if i < |queue| - 1 { assert rest[i] == queue[i + 1]; } else { assert rest[i] in added; }
    }
    forall i, j | 0 <= i < j < |rest| ensures rest[i].1 <= rest[j].1 {
      if j < |queue| - 1 { assert rest[i] == queue[i + 1] && rest[j] == queue[j + 1]; }
          else { assert rest[j] in added; }
    }
  }

  lemma CoveredAfter<T>(succ: Graph<T>, depth: map<T, nat>, queue: seq<(T, nat)>, added: seq<(T, nat)>)
    requires Covered(succ, depth, queue) && queue != [] && queue[0].0 !in depth
    requires forall p | p in succ && queue[0].0 in succ[p] && p !in depth && p != queue[0].0 ::
               (p, queue[0].1 + 1) in added
    ensures Covered(succ, depth[queue[0].0 := queue[0].1], queue[1..] + added)
  {
    var depth', rest := depth[queue[0].0 := queue[0].1], queue[1..] + added;
    assert queue == [queue[0]] + queue[1..];
    forall e | e in queue && e.0 !in depth' ensures e in rest {
      assert e in queue[1..];
    }
  }

  ghost predicate Reaches<T>(succ: Graph<T>, n: T) {
    exists k: nat :: Within(succ, n, k)
  }

  /** In a graph without cycles every node reaches a sink. */
  lemma ReachesSink<T>(succ: Graph<T>, far: set<T>)
    requires Kahn.Closed(succ) && !exists c :: Kahn.Cycle(succ, c)
    requires far <= succ.Keys && forall n | n in succ :: n in far <==> !Reaches(succ, n)
    ensures far == {}
  {
    forall n | n in far ensures Kahn.Waits(succ, far, n) {
      assert !Within(succ, n, 0);
      var m :| m in succ[n];
      if m !in far {
        assert Reaches(succ, m);
        var k: nat :| Within(succ, m, k);
        assert Within(succ, n, k + 1);
      }
      assert m in succ[n] * far;
    }
    if far != {} { Kahn.StuckHasCycle(succ, far); }
  }

  /** compute_node_depth's initial queue: the sinks, at depth 1. */
  method Sinks<T(==)>(nodes: seq<T>, succ: Graph<T>) returns (queue: seq<(T, nat)>)
    requires forall n | n in nodes :: n in succ
    ensures forall e | e in queue :: e.1 == 1 && e.0 in succ && succ[e.0] == {}
    ensures forall n | n in nodes && succ[n] == {} :: (n, 1) in queue
  {
    queue := [];
    for i := 0 to |nodes|
      invariant forall e | e in queue :: e.1 == 1 && e.0 in succ && succ[e.0] == {}
      invariant forall n | n in nodes[..i] && succ[n] == {} :: (n, 1) in queue
    {
      if succ[nodes[i]] == {} {
        queue := queue + [(nodes[i], 1)];
        assert (nodes[i], 1) in queue;
      }
      assert nodes[..i + 1] == nodes[..i] + [nodes[i]];
    }
    assert nodes[..|nodes|] == nodes;
  }

  /** The prerequisites of a settled node, one level deeper, unless already settled. */
  method Deeper<T(==)>(deps: set<T>, settled: set<T>, d: nat) returns (added: seq<(T, nat)>)
    ensures forall e | e in added :: e.1 == d && e.0 in deps
    ensures forall p | p in deps && p !in settled :: (p, d) in added
  {
    added := [];
    var todo := deps;
    while todo != {}
      invariant todo <= deps
      invariant forall e | e in added :: e.1 == d && e.0 in deps
      invariant forall p | p in deps && p !in settled && p !in todo :: (p, d) in added
      decreases |todo|
    {
      var p :| p in todo;
      todo := todo - {p};
      if p !in settled {
        added := added + [(p, d)];
        assert (p, d) in added;
      }
    }
  }

  /**
   * compute_node_depth: although a node may be queued several times and is settled when first
   * popped, every node of an acyclic graph gets one plus its shortest distance to a sink.
   */
  method ComputeNodeDepth<T(==)>(nodes: seq<T>, pre: Graph<T>, succ: Graph<T>) returns (depth: map<T, nat>)
    requires Reversed(pre, succ) && forall n :: n in nodes <==> n in succ
    requires Kahn.Closed(succ) && !exists c :: Kahn.Cycle(succ, c)
    ensures depth.Keys == succ.Keys
    ensures forall n | n in succ :: Exact(succ, n, depth[n])
  {
    hide Settled, Covered, Sorted, Exact;
    depth := map[];
    var queue := Sinks(nodes, succ);
    SinksSorted(succ, queue);
    while queue != []
      invariant depth.Keys <= succ.Keys && Searching(succ, depth, queue)
      decreases succ.Keys - depth.Keys, |queue|
    {
      var (n, d) := queue[0];
      HeadKnown(succ, depth, queue);
      if n in depth {
        SkipHead(succ, depth, queue);
        queue := queue[1..];
      } else {
        var added := Deeper(pre[n], depth.Keys + {n}, d + 1);
        SettleHead(succ, depth, queue, added);
        ghost var left := succ.Keys - depth.Keys;
        assert n in left;
        depth, queue := depth[n := d], queue[1..] + added;
        assert succ.Keys - depth.Keys == left - {n};
      }
    }
    AllSettled(succ, depth);
  }

  ghost predicate Searching<T>(succ: Graph<T>, depth: map<T, nat>, queue: seq<(T, nat)>) {
    Settled(succ, depth, queue) && Covered(succ, depth, queue) && Sorted(queue)
  }

  lemma HeadKnown<T>(succ: Graph<T>, depth: map<T, nat>, queue: seq<(T, nat)>)
    requires Settled(succ, depth, queue) && queue != []
    ensures queue[0].0 in succ
  {
    assert queue[0] in queue;
    assert Within(succ, queue[0].0, queue[0].1 - 1);
  }

  lemma SinksSorted<T>(succ: Graph<T>, queue: seq<(T, nat)>)
    requires forall e | e in queue :: e.1 == 1 && e.0 in succ && succ[e.0] == {}
    requires forall n | n in succ && succ[n] == {} :: (n, 1) in queue
    ensures Settled(succ, map[], queue) && Covered(succ, map[], queue) && Sorted(queue)
  {
    forall i | 0 <= i < |queue| ensures queue[i].1 == 1 { assert queue[i] in queue; }
  }

  lemma AllSettled<T>(succ: Graph<T>, depth: map<T, nat>)
    requires Settled(succ, depth, []) && Covered(succ, depth, [])
    requires Kahn.Closed(succ) && !exists c :: Kahn.Cycle(succ, c)
    ensures depth.Keys == succ.Keys && forall n | n in succ :: Exact(succ, n, depth[n])
  {
    var far := succ.Keys - depth.Keys;
    forall n | n in succ ensures n in far <==> !Reaches(succ, n) {
      if n in far {
        if Reaches(succ, n) {
          var k: nat :| Within(succ, n, k);
          var e := QueuedWithin(succ, depth, [], n, k);
        }
      } else {
        assert Within(succ, n, depth[n] - 1);
      }
    }
    ReachesSink(succ, far);
  }
}
