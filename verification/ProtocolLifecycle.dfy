/** Life of a task: queued once, when it may run; then in one worker's pipeline until it completes. */
module ProtocolLifecycle {
  import opened Wrappers
  import opened TaskGraphs
  import opened Protocol
  import Kahn

  // ---------------------------------------------------------------- a worker's pipeline

  function DoneNodes(outbox: seq<Report>): seq<NodeId> {
    if outbox == [] then []
    else (match outbox[0] case Tensor(_, _) => [] case Done(n) => [n]) + DoneNodes(outbox[1..])
  }

  function JobNodes(jobs: seq<Job>): seq<NodeId> {
    seq(|jobs|, i requires 0 <= i < |jobs| => jobs[i].node)
  }

  function InboxNodes(inbox: seq<Message>): seq<NodeId> {
    if inbox == [] then [] else JobNodes(inbox[0].jobs) + InboxNodes(inbox[1..])
  }

  /** The tasks given to a worker whose completion has not been received, oldest first. */
  function Pipeline(x: WorkerState): seq<NodeId> {
    DoneNodes(x.outbox) + JobNodes(x.running) + InboxNodes(x.inbox)
  }

  lemma {:induction false} DoneNodesAppend(a: seq<Report>, b: seq<Report>)
    ensures DoneNodes(a + b) == DoneNodes(a) + DoneNodes(b)
  {
    if a == [] {
      assert a + b == b;
    } else {
      assert (a + b)[1..] == a[1..] + b;
      DoneNodesAppend(a[1..], b);
    }
  }

  lemma {:induction false} InboxNodesAppend(a: seq<Message>, b: seq<Message>)
    ensures InboxNodes(a + b) == InboxNodes(a) + InboxNodes(b)
  {
    if a == [] {
      assert a + b == b;
    } else {
      assert (a + b)[1..] == a[1..] + b;
      InboxNodesAppend(a[1..], b);
    }
  }

  lemma {:induction false} TensorsNotDone(n: NodeId, tensors: seq<TensorId>)
    ensures DoneNodes(TensorReports(n, tensors)) == []
  {
    if tensors != [] {
      assert TensorReports(n, tensors)[1..] == TensorReports(n, tensors[1..]);
      TensorsNotDone(n, tensors[1..]);
    }
  }

  lemma StartKeepsPipeline(x: WorkerState)
    requires x.running == [] && x.inbox != []
    ensures Pipeline(Start(x)) == Pipeline(x)
  {
    assert JobNodes(x.running) == [];
  }

  lemma EmitKeepsPipeline(x: WorkerState, n: NodeId, t: TensorId)
    ensures Pipeline(Emit(x, n, t)) == Pipeline(x)
  {
    DoneNodesAppend(x.outbox, [Tensor(n, t)]);
    assert DoneNodes([Tensor(n, t)]) == [];
  }

  lemma FinishKeepsPipeline(g: Graph, x: WorkerState, reports: seq<TensorId>)
    requires x.running != [] && x.running[0].node in g
    ensures Pipeline(Finish(g, x, reports)) == Pipeline(x)
  {
    var n := x.running[0].node;
    DoneNodesAppend(x.outbox + TensorReports(n, reports), [Done(n)]);
    DoneNodesAppend(x.outbox, TensorReports(n, reports));
    TensorsNotDone(n, reports);
    assert DoneNodes([Done(n)]) == [n];
    assert JobNodes(x.running) == [n] + JobNodes(x.running[1..]);
  }

  lemma PopFromPipeline(x: WorkerState)
    requires x.outbox != []
    ensures var x' := x.(outbox := x.outbox[1..]);
            Pipeline(x) == (if x.outbox[0].Done? then [x.outbox[0].node] else []) + Pipeline(x')
  {
  }

  lemma AcceptExtendsPipeline(g: Graph, c: Coord, x: WorkerState, w: Worker, frees: seq<TensorId>, group: seq<NodeId>)
    requires forall n | n in group :: n in g
    ensures Pipeline(x.(inbox := x.inbox + [Message(frees, JobsFor(g, c, w, group))])) == Pipeline(x) + group
  {
    hide DoneNodes;
    var m := Message(frees, JobsFor(g, c, w, group));
    InboxNodesAppend(x.inbox, [m]);
    assert JobNodes(m.jobs) == group;
    assert InboxNodes([m]) == group by { assert [m][1..] == []; }
  }

  // ---------------------------------------------------------------- the invariant

  ghost predicate Piped(c: Coord, w: Worker, pipeline: seq<NodeId>) {
    Distinct(pipeline) && forall n | n in pipeline :: n in c.sent && c.sent[n].worker == w && n !in c.completed
  }

  function Pipelines(ws: map<Worker, WorkerState>): map<Worker, seq<NodeId>> {
    map w | w in ws :: Pipeline(ws[w])
  }

  /** A queued task is ready or sent, not both; sent and not completed means in its worker's pipeline, once. */
  ghost predicate Lifecycle(g: Graph, c: Coord, pipes: map<Worker, seq<NodeId>>) {
    && (forall n | n in c.scheduled :: n in g && n.request in c.arrived)
    && Distinct(c.ready) && (forall n | n in c.ready :: n in c.scheduled && n !in c.sent)
    && (forall n | n in c.scheduled :: n in c.ready || n in c.sent)
    && c.sent.Keys <= c.scheduled && c.completed <= c.sent.Keys && c.updates <= c.completed
    && (forall w | w in pipes :: Piped(c, w, pipes[w]))
    && (forall n | n in c.sent && n !in c.completed :: c.sent[n].worker in pipes && n in pipes[c.sent[n].worker])
  }

  /** Queued exactly when every non-lazy prerequisite has completed. */
  ghost predicate ReadyExactly(g: Graph, c: Coord) {
    && (forall n | n in c.scheduled :: n in g && NonLazyPrerequisites(g, n) <= c.completed)
    && (forall n | n in g && n.request in c.arrived && NonLazyPrerequisites(g, n) <= c.completed :: n in c.scheduled)
  }

  /** Finished exactly when there is something to do and all of it is done. */
  ghost predicate FinishedExactly(g: Graph, c: Coord) {
    forall r :: r in c.finished <==> NodesOf(g, r) != {} && NodesOf(g, r) <= c.completed
  }

  // ---------------------------------------------------------------- steps

  lemma Concat<T>(a: seq<T>, b: seq<T>)
    requires Distinct(a) && Distinct(b) && forall x | x in a :: x !in b
    ensures Distinct(a + b)
  {
    forall i, j | 0 <= i < j < |a + b| ensures (a + b)[i] != (a + b)[j] {
      if i < |a| <= j { assert a[i] in a && b[j - |a|] in b; }
    }
  }

  lemma EnqueueLifecycle(g: Graph, c: Coord, pipes: map<Worker, seq<NodeId>>, batch: seq<NodeId>)
    requires Lifecycle(g, c, pipes)
    requires Distinct(batch) && forall n | n in batch :: n !in c.scheduled && n in g && n.request in c.arrived
    ensures Lifecycle(g, Enqueue(c, batch), pipes)
  {
    Concat(c.ready, batch);
  }

  lemma SubmitLifecycle(g: Graph, c: Coord, pipes: map<Worker, seq<NodeId>>, request: nat, batch: seq<NodeId>)
    requires Lifecycle(g, c, pipes) && ReadyExactly(g, c)
    requires request !in c.arrived && Lists(batch, NewlyReady(g, c, NodesOf(g, request)))
    ensures Lifecycle(g, Submit(g, c, request, batch), pipes) && ReadyExactly(g, Submit(g, c, request, batch))
  {
    EnqueueLifecycle(g, Register(g, c, request), pipes, batch);
    forall n | n in g && n.request in c.arrived + {request} && NonLazyPrerequisites(g, n) <= c.completed
      ensures n in Enqueue(Register(g, c, request), batch).scheduled
    {
      if n.request == request && n !in c.scheduled { assert n in NewlyReady(g, c, NodesOf(g, request)); }
    }
  }

  lemma {:induction false} WithoutMembers(s: seq<NodeId>, group: seq<NodeId>)
    requires Distinct(s)
    ensures Distinct(Without(s, group))
    ensures forall n :: n in Without(s, group) <==> n in s && n !in group
  {
    if s != [] {
      var rest := Without(s[1..], group);
      WithoutMembers(s[1..], group);
      assert s == [s[0]] + s[1..];
      assert s[0] !in s[1..] by { forall j | 0 <= j < |s[1..]| ensures s[1..][j] != s[0] {} }
      if s[0] !in group {
        Concat([s[0]], rest);
      } else {
        assert Without(s, group) == rest;
      }
    }
  }

  lemma DispatchLifecycle(g: Graph, c: Coord, pipes: map<Worker, seq<NodeId>>, w: Worker, group: seq<NodeId>)
    requires Lifecycle(g, c, pipes) && w in pipes && Distinct(group)
    requires forall n | n in group :: n in c.ready && n in g
    ensures Lifecycle(g, Dispatch(g, c, w, group), pipes[w := pipes[w] + group])
  {
    WithoutMembers(c.ready, group);
    Concat(pipes[w], group);
  }

  lemma EnqueuedWhenCompleted(g: Graph, c: Coord, n: NodeId, batch: seq<NodeId>)
    requires ReadyExactly(g, c) && n in g && (forall m | m in c.scheduled :: m in g && m.request in c.arrived)
    requires Lists(batch, NewlyReady(g, Complete(c, n), Successors(g, n))) && n.request in c.arrived
    ensures ReadyExactly(g, Enqueue(Complete(c, n), batch))
    ensures forall m | m in batch :: m !in c.scheduled && m in g && m.request in c.arrived
  {
    var c' := Enqueue(Complete(c, n), batch);
    forall m | m in g && m.request in c'.arrived && NonLazyPrerequisites(g, m) <= c'.completed
      ensures m in c'.scheduled
    {
      if m !in c.scheduled {
        assert n in NonLazyPrerequisites(g, m);
        assert m in NewlyReady(g, Complete(c, n), Successors(g, n));
      }
    }
  }

  lemma DoneLifecycle(g: Graph, c: Coord, pipes: map<Worker, seq<NodeId>>, w: Worker, batch: seq<NodeId>)
    requires Lifecycle(g, c, pipes) && ReadyExactly(g, c) && w in pipes && pipes[w] != []
    requires Lists(batch, NewlyReady(g, Complete(c, pipes[w][0]), Successors(g, pipes[w][0])))
    ensures pipes[w][0] in g && pipes[w][0] !in c.completed
    ensures var c' := Enqueue(Complete(c, pipes[w][0]), batch);
            Lifecycle(g, c', pipes[w := pipes[w][1..]]) && ReadyExactly(g, c')
  {
    var n := pipes[w][0];
    assert n in pipes[w] && Piped(c, w, pipes[w]);
    EnqueuedWhenCompleted(g, c, n, batch);
    CompleteLifecycle(g, c, pipes, w);
    EnqueueLifecycle(g, Complete(c, n), pipes[w := pipes[w][1..]], batch);
  }

  lemma CompleteLifecycle(g: Graph, c: Coord, pipes: map<Worker, seq<NodeId>>, w: Worker)
    requires Lifecycle(g, c, pipes) && w in pipes && pipes[w] != []
    ensures Lifecycle(g, Complete(c, pipes[w][0]), pipes[w := pipes[w][1..]])
  {
    hide Piped;
    var n, pipes' := pipes[w][0], pipes[w := pipes[w][1..]];
    var c' := Complete(c, n);
    forall v | v in pipes' ensures Piped(c', v, pipes'[v]) {
      HeadCompletes(c, w, v, pipes[w], pipes[v]);
    }
    HeadCompletes(c, w, w, pipes[w], pipes[w]);
    forall m | m in c'.sent && m !in c'.completed
      ensures c'.sent[m].worker in pipes' && m in pipes'[c'.sent[m].worker]
    {
      assert m in pipes[c.sent[m].worker];
    }
  }

  /** The head of a pipeline completes: it leaves its own and was in no other. */
  lemma HeadCompletes(c: Coord, w: Worker, v: Worker, head: seq<NodeId>, pipe: seq<NodeId>)
    requires Piped(c, w, head) && head != [] && Piped(c, v, pipe) && (v == w ==> pipe == head)
    ensures head[0] in c.sent && head[0] !in c.completed
    ensures Piped(Complete(c, head[0]), v, if v == w then head[1..] else pipe)
    ensures forall m | m in head && m != head[0] :: m in head[1..]
  {
    assert head == [head[0]] + head[1..];
    HeadGone(head);
  }

  lemma HeadGone(s: seq<NodeId>)
    requires Distinct(s) && s != []
    ensures Distinct(s[1..]) && s[0] !in s[1..]
  {
    forall j | 0 <= j < |s[1..]| ensures s[1..][j] != s[0] {
      assert s[1..][j] == s[j + 1];
    }
  }

  lemma FinishedAfter(g: Graph, c: Coord, c': Coord, n: NodeId)
    requires FinishedExactly(g, c) && n in g && n !in c.completed
    requires c'.completed == c.completed + {n} && c'.finished == c.finished
    ensures FinishedExactly(g, CheckFinished(g, c', n.request))
  {
    var all := NodesOf(g, n.request);
    assert n in all;
    Kahn.SubsetSameSize(c'.completed * all, all);
    assert c'.completed * all == all <==> all <= c'.completed;
    forall r | r != n.request ensures NodesOf(g, r) <= c.completed <==> NodesOf(g, r) <= c'.completed {
      assert n !in NodesOf(g, r);
    }
  }

  // ---------------------------------------------------------------- progress

  /** Who waits for whom among the unfinished nodes of a request. */
  function WaitGraph(g: Graph, request: nat): map<NodeId, set<NodeId>> {
    map n | n in NodesOf(g, request) :: Prerequisites(g, n)
  }

  /** The expander's check: no cycle among the nodes of a request. */
  ghost predicate Acyclic(g: Graph, request: nat) {
    !exists c :: Kahn.Cycle(WaitGraph(g, request), c)
  }

  /** While an acyclic request is unfinished, one of its queued tasks is: nothing ever waits for nothing. */
  lemma NeverStuck(g: Graph, c: Coord, pipes: map<Worker, seq<NodeId>>, request: nat)
    requires Lifecycle(g, c, pipes) && ReadyExactly(g, c)
    requires request in c.arrived && Acyclic(g, request) && !(NodesOf(g, request) <= c.completed)
    ensures exists n :: n in NodesOf(g, request) && n in c.scheduled && n !in c.completed
                        && (n in c.ready || (n in c.sent && c.sent[n].worker in pipes && n in pipes[c.sent[n].worker]))
  {
    var open := NodesOf(g, request) - c.completed;
    if forall n | n in open :: n !in c.scheduled {
      var waits := WaitGraph(g, request);
      forall n | n in open ensures n in waits && Kahn.Waits(waits, open, n) {
        var m :| m in NonLazyPrerequisites(g, n) && m !in c.completed;
        assert m in waits[n] * open;
      }
      Kahn.StuckHasCycle(waits, open);
    }
  }
}
