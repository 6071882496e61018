/** Reference counts, and who is told to free what. */
module ProtocolFrees {
  import opened Wrappers
  import opened TaskGraphs
  import opened Protocol
  import opened ProtocolLifecycle
  import opened ProtocolReports

  // ---------------------------------------------------------------- reference counts

  function ArrivedNodes(g: Graph, c: Coord): set<NodeId> {
    set n | n in g && n.request in c.arrived
  }

  /** Completed, and its reads accounted for. */
  function Processed(c: Coord): set<NodeId> {
    c.completed - c.updates
  }

  function Open(g: Graph, c: Coord): (open: set<NodeId>)
    ensures open <= g.Keys
  {
    ArrivedNodes(g, c) - Processed(c)
  }

  /** Each count is the number of inputs of nodes not yet processed that read the tensor. */
  ghost predicate References(g: Graph, c: Coord) {
    && c.refs.Keys == ReadTensors(g, ArrivedNodes(g, c))
    && forall t | t in c.refs :: c.refs[t] == |ReadersOf(g, Open(g, c), t)|
  }

  /** A tensor that an unprocessed node reads is not retired. */
  lemma OpenNotRetired(g: Graph, c: Coord, n: NodeId, t: TensorId)
    requires References(g, c) && n in Open(g, c) && t in ReadSet(g[n])
    ensures t in c.refs && c.refs[t] > 0
  {
    assert t in ReadTensors(g, ArrivedNodes(g, c));
    ReaderCounts(g, Open(g, c), n, t);
  }

  /** All readers of a retired tensor have completed, and there was one. */
  lemma RetiredMeans(g: Graph, c: Coord, t: TensorId)
    requires References(g, c) && Retired(c, t)
    ensures forall n | n in ArrivedNodes(g, c) && t in ReadSet(g[n]) :: n in Processed(c)
    ensures exists n :: n in ArrivedNodes(g, c) && t in ReadSet(g[n]) && n in c.completed
  {
    NoReader(g, Open(g, c), t);
    var n :| n in ArrivedNodes(g, c) && n in g && t in ReadSet(g[n]);
    assert n !in Open(g, c);
  }

  lemma SameReaders(g: Graph, a: set<NodeId>, b: set<NodeId>, t: TensorId)
    requires a <= g.Keys && b <= g.Keys
    requires forall n | n in g && t in ReadSet(g[n]) :: n in a <==> n in b
    ensures ReadersOf(g, a, t) == ReadersOf(g, b, t)
  {
    forall n, k | n in g && k in g[n].inputs && g[n].inputs[k].produced && g[n].inputs[k].tensor == t
      ensures n in a <==> n in b
    {
      assert t in ReadSet(g[n]);
    }
  }

  lemma SubmitReferences(g: Graph, c: Coord, request: nat)
    requires WellFormed(g) && References(g, c) && request !in c.arrived
    requires forall n | n in c.completed :: n in ArrivedNodes(g, c)
    ensures References(g, Register(g, c, request))
    ensures forall t :: Retired(Register(g, c, request), t) <==> Retired(c, t)
  {
    hide ReadersOf, Open, Retired;
    var c', fresh_ := Register(g, c, request), NodesOf(g, request);
    assert ArrivedNodes(g, c') == ArrivedNodes(g, c) + fresh_;
    assert c'.refs.Keys == ReadTensors(g, ArrivedNodes(g, c'));
    forall t ensures t in c'.refs ==> c'.refs[t] == |ReadersOf(g, Open(g, c'), t)|
             ensures Retired(c', t) <==> Retired(c, t)
    {
      SubmitCount(g, c, request, t);
    }
  }

  lemma SubmitCount(g: Graph, c: Coord, request: nat, t: TensorId)
    requires WellFormed(g) && References(g, c) && request !in c.arrived
    requires forall n | n in c.completed :: n in ArrivedNodes(g, c)
    ensures var c' := Register(g, c, request);
            && (t in c'.refs ==> c'.refs[t] == |ReadersOf(g, Open(g, c'), t)|)
            && (Retired(c', t) <==> Retired(c, t))
  {
    if t in ReadTensors(g, NodesOf(g, request)) {
      NewCount(g, c, request, t);
    } else if t in c.refs {
      OldReaders(g, c, request, t);
    }
  }

  lemma NewCount(g: Graph, c: Coord, request: nat, t: TensorId)
    requires WellFormed(g) && c.refs.Keys == ReadTensors(g, ArrivedNodes(g, c)) && request !in c.arrived
    requires forall n | n in c.completed :: n in ArrivedNodes(g, c)
    requires t in ReadTensors(g, NodesOf(g, request))
    ensures t !in c.refs
    ensures |ReadersOf(g, NodesOf(g, request), t)| > 0
    ensures ReadersOf(g, Open(g, Register(g, c, request)), t) == ReadersOf(g, NodesOf(g, request), t)
  {
    hide Open, Register, ReadersOf, CountReaders;
    var n :| n in NodesOf(g, request) && n in g && t in ReadSet(g[n]);
    assert t.request == request;
    ReaderCounts(g, NodesOf(g, request), n, t);
    NewReaders(g, c, request, t);
    NotReadBefore(g, c, t);
  }

  lemma NotReadBefore(g: Graph, c: Coord, t: TensorId)
    requires WellFormed(g) && t.request !in c.arrived
    ensures t !in ReadTensors(g, ArrivedNodes(g, c))
  {
  }

  lemma NewReaders(g: Graph, c: Coord, request: nat, t: TensorId)
    requires WellFormed(g) && t.request == request && forall n | n in c.completed :: n in ArrivedNodes(g, c)
    requires request !in c.arrived
    ensures ReadersOf(g, Open(g, Register(g, c, request)), t) == ReadersOf(g, NodesOf(g, request), t)
  {
    var open := Open(g, Register(g, c, request));
    forall n | n in g && t in ReadSet(g[n]) ensures n in open <==> n in NodesOf(g, request) {
      assert n.request == request;
    }
    SameReaders(g, open, NodesOf(g, request), t);
  }

  lemma OldReaders(g: Graph, c: Coord, request: nat, t: TensorId)
    requires t !in ReadTensors(g, NodesOf(g, request))
    ensures ReadersOf(g, Open(g, Register(g, c, request)), t) == ReadersOf(g, Open(g, c), t)
  {
    var open := Open(g, Register(g, c, request));
    forall n | n in g && t in ReadSet(g[n]) ensures n in open <==> n in Open(g, c) {
      assert n !in NodesOf(g, request);
    }
    SameReaders(g, open, Open(g, c), t);
  }

  lemma CompleteReferences(g: Graph, c: Coord, c': Coord, n: NodeId)
    requires References(g, c) && n !in c.completed && c.updates <= c.completed
    requires c'.arrived == c.arrived && c'.refs == c.refs && c'.completed == c.completed + {n}
               && c'.updates == c.updates + {n}
    ensures References(g, c')
  {
    assert Processed(c') == Processed(c);
  }

  lemma UpdateReferences(g: Graph, c: Coord, n: NodeId, listings: map<Worker, seq<TensorId>>)
    requires References(g, c) && n in c.updates && n in Open(g, c) && c.updates <= c.completed
    ensures References(g, UpdateFree(g, c, n, listings))
  {
    var c' := UpdateFree(g, c, n, listings);
    assert Processed(c') == Processed(c) + {n};
    assert Open(g, c') == Open(g, c) - {n};
    assert ArrivedNodes(g, c') == ArrivedNodes(g, c);
    forall t | t in c'.refs ensures c'.refs[t] == |ReadersOf(g, Open(g, c'), t)| {
      ReadersSplit(g, Open(g, c), n, t);
    }
  }

  /** Retired by this update: exactly what is unused now, none of it retired before; what was stays so. */
  lemma UpdateRetires(g: Graph, c: Coord, n: NodeId, listings: map<Worker, seq<TensorId>>, t: TensorId)
    requires References(g, c) && n in c.updates && n in Open(g, c) && c.updates <= c.completed
    ensures Retired(UpdateFree(g, c, n, listings), t) <==> Retired(c, t) || t in Unused(g, c, n)
    ensures t in Unused(g, c, n) ==> !Retired(c, t)
  {
    hide ReadersOf, ReadTensors, ArrivedNodes, Open;
    if t in ReadSet(g[n]) { OpenNotRetired(g, c, n, t); }
    if t in c.refs {
      ReadersSplit(g, Open(g, c), n, t);
      if t !in ReadSet(g[n]) {
        NoneReads(g, n, t);
      }
    }
  }

  lemma NoneReads(g: Graph, n: NodeId, t: TensorId)
    requires n in g && t !in ReadSet(g[n])
    ensures |ReadersOf(g, {n}, t)| == 0
  {
    forall k | k in g[n].inputs && g[n].inputs[k].produced ensures g[n].inputs[k].tensor in ReadSet(g[n]) {}
    assert ReadersOf(g, {n}, t) == {};
  }

  // ---------------------------------------------------------------- who is told what

  function InboxFrees(inbox: seq<Message>): seq<TensorId> {
    if inbox == [] then [] else inbox[0].frees + InboxFrees(inbox[1..])
  }

  /** All a worker has been told to free, is being told, or will be told with its next task; oldest first. */
  function ToldTo(c: Coord, w: Worker, x: WorkerState): seq<TensorId> {
    x.freed + InboxFrees(x.inbox) + FreeListOf(c, w)
  }

  function Told(c: Coord, w: Worker): set<TensorId> {
    set t | t in c.refs && Retired(c, t) && w in HoldersOf(c, t)
  }

  /** A worker is told once to free each retired tensor it is recorded to hold, and nothing else. */
  ghost predicate ToldExactly(c: Coord, w: Worker, x: WorkerState) {
    Lists(ToldTo(c, w, x), Told(c, w))
  }

  /** A recorded holder still has the tensor while a reader of it is unprocessed. */
  ghost predicate Holds(c: Coord, w: Worker, x: WorkerState) {
    forall t | t in c.holders && w in c.holders[t] && !Retired(c, t) :: t in x.store
  }

  /** The same of what it is about to report. */
  ghost predicate HoldsReported(c: Coord, x: WorkerState) {
    forall r | r in x.outbox && r.Tensor? && !Retired(c, r.tensor) :: r.tensor in x.store
  }

  lemma {:induction false} InboxFreesAppend(a: seq<Message>, b: seq<Message>)
    ensures InboxFrees(a + b) == InboxFrees(a) + InboxFrees(b)
  {
    if a == [] {
      assert a + b == b;
    } else {
      assert (a + b)[1..] == a[1..] + b;
      InboxFreesAppend(a[1..], b);
    }
  }

  lemma StartFrees(c: Coord, w: Worker, x: WorkerState)
    requires x.inbox != [] && ToldExactly(c, w, x) && Holds(c, w, x) && HoldsReported(c, x)
    ensures ToldTo(c, w, Start(x)) == ToldTo(c, w, x)
    ensures ToldExactly(c, w, Start(x)) && Holds(c, w, Start(x)) && HoldsReported(c, Start(x))
  {
    var m := x.inbox[0];
    assert InboxFrees(x.inbox) == m.frees + InboxFrees(x.inbox[1..]);
    assert ToldTo(c, w, Start(x)) == ToldTo(c, w, x);
    forall t | t in m.frees ensures Retired(c, t) {
      assert t in ToldTo(c, w, x);
    }
  }

  /** The pending list of a worker goes along with its next task. */
  lemma DispatchFrees(g: Graph, c: Coord, w: Worker, x: WorkerState, group: seq<NodeId>)
    requires forall n | n in group :: n in g
    ensures ToldTo(Dispatch(g, c, w, group), w,
                   x.(inbox := x.inbox + [Message(FreeListOf(c, w), JobsFor(g, c, w, group))])) == ToldTo(c, w, x)
  {
    var m := Message(FreeListOf(c, w), JobsFor(g, c, w, group));
    InboxFreesAppend(x.inbox, [m]);
    assert InboxFrees([m]) == m.frees by { assert [m][1..] == []; }
    assert FreeListOf(Dispatch(g, c, w, group), w) == [];
  }

  lemma ListsMore<T(!new)>(s: seq<T>, all: set<T>, more: seq<T>, extra: set<T>)
    requires Lists(s, all) && Lists(more, extra) && all !! extra
    ensures Lists(s + more, all + extra)
  {
    forall x | x in s ensures x !in more {
      assert x in all && x !in extra;
    }
    Concat(s, more);
  }

  /** An update of counts tells each recorded holder of each newly retired tensor, once. */
  lemma UpdateTells(g: Graph, c: Coord, n: NodeId, listings: map<Worker, seq<TensorId>>, w: Worker, x: WorkerState)
    requires References(g, c) && n in c.updates && n in Open(g, c) && c.updates <= c.completed
    requires w in listings && Lists(listings[w], ToFree(g, c, n, w)) && ToldExactly(c, w, x)
    ensures ToldExactly(UpdateFree(g, c, n, listings), w, x)
  {
    hide *;
    var c' := UpdateFree(g, c, n, listings);
    forall t ensures t in Told(c', w) <==> t in Told(c, w) || t in ToFree(g, c, n, w)
             ensures t in ToFree(g, c, n, w) ==> t !in Told(c, w)
    {
      UpdateTellsOf(g, c, n, listings, w, t);
    }
    assert Told(c', w) == Told(c, w) + ToFree(g, c, n, w);
    ToldToMore(g, c, n, listings, w, x);
    ToldExactlyIs(c, w, x);
    ToldExactlyIs(c', w, x);
    ListsMore(ToldTo(c, w, x), Told(c, w), listings[w], ToFree(g, c, n, w));
  }

  lemma ToldExactlyIs(c: Coord, w: Worker, x: WorkerState)
    ensures ToldExactly(c, w, x) <==> Lists(ToldTo(c, w, x), Told(c, w))
  {
  }

  lemma ToldToMore(g: Graph, c: Coord, n: NodeId, listings: map<Worker, seq<TensorId>>, w: Worker, x: WorkerState)
    requires n in g && w in listings
    ensures ToldTo(UpdateFree(g, c, n, listings), w, x) == ToldTo(c, w, x) + listings[w]
  {
    hide InboxFrees, Decrement;
    var told := x.freed + InboxFrees(x.inbox);
    assert told + (FreeListOf(c, w) + listings[w]) == told + FreeListOf(c, w) + listings[w];
  }

  lemma UpdateTellsOf(g: Graph, c: Coord, n: NodeId, listings: map<Worker, seq<TensorId>>, w: Worker, t: TensorId)
    requires References(g, c) && n in c.updates && n in Open(g, c) && c.updates <= c.completed
    ensures t in Told(UpdateFree(g, c, n, listings), w) <==> t in Told(c, w) || t in ToFree(g, c, n, w)
    ensures t in ToFree(g, c, n, w) ==> t !in Told(c, w)
  {
    hide Retired, References, Unused, Decrement;
    UpdateRetires(g, c, n, listings, t);
    RetiredCounted(c, t);
    RetiredCounted(UpdateFree(g, c, n, listings), t);
  }

  lemma RetiredCounted(c: Coord, t: TensorId)
    ensures Retired(c, t) ==> t in c.refs
  {
  }

  lemma UpdateHolds(g: Graph, c: Coord, n: NodeId, listings: map<Worker, seq<TensorId>>, w: Worker, x: WorkerState)
    requires References(g, c) && n in c.updates && n in Open(g, c) && c.updates <= c.completed
    requires Holds(c, w, x) && HoldsReported(c, x)
    ensures Holds(UpdateFree(g, c, n, listings), w, x) && HoldsReported(UpdateFree(g, c, n, listings), x)
  {
    forall t | Retired(c, t) ensures Retired(UpdateFree(g, c, n, listings), t) {
      UpdateRetires(g, c, n, listings, t);
    }
  }

  /** Recording a holder of a tensor that is not retired tells nobody anything. */
  lemma ReceiveTells(c: Coord, v: Worker, t: TensorId, w: Worker, x: WorkerState)
    requires ToldExactly(c, w, x) && !Retired(c, t)
    ensures ToldExactly(ReceiveTensor(c, v, t), w, x)
  {
    var c' := ReceiveTensor(c, v, t);
    assert Told(c, w) == Told(c', w);
  }

  // ---------------------------------------------------------------- what is recorded when

  /** Everything a completed node read or output has been recorded. */
  ghost predicate RecordedAfter(g: Graph, c: Coord) {
    forall n | n in c.completed :: n in g && ReadSet(g[n]) + g[n].outputs <= c.holders.Keys
  }

  /** Nothing a node outputs is recorded before it is sent. */
  ghost predicate Unborn(g: Graph, c: Coord) {
    forall p | p in g && p !in c.sent :: g[p].outputs !! c.holders.Keys
  }

  lemma RetiredRecorded(g: Graph, c: Coord, t: TensorId)
    requires References(g, c) && RecordedAfter(g, c) && Retired(c, t)
    ensures t in c.holders
  {
    RetiredMeans(g, c, t);
    var m :| m in ArrivedNodes(g, c) && t in ReadSet(g[m]) && m in c.completed;
    assert t in ReadSet(g[m]) + g[m].outputs;
  }

  /** A report under way is of a tensor somebody may still read. */
  lemma ReceivedNotRetired(g: Graph, c: Coord, w: Worker, x: WorkerState)
    requires WellFormed(g) && References(g, c) && RecordedAfter(g, c) && Consistent(g, c, w, x)
    requires x.outbox != [] && x.outbox[0].Tensor?
    requires forall n | n in Pipeline(x) :: n in Open(g, c)
    ensures !Retired(c, x.outbox[0].tensor)
  {
    var n, t := x.outbox[0].node, x.outbox[0].tensor;
    assert n in Pipeline(x);
    if t in g[n].outputs {
      if Retired(c, t) { RetiredRecorded(g, c, t); }
    } else {
      OpenNotRetired(g, c, n, t);
    }
  }
}
