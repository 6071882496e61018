/** What holds in every state that any interleaving of coordinator and workers reaches. */
module ProtocolTheorems {
  import opened Wrappers
  import opened TaskGraphs
  import opened Protocol
  import opened ProtocolLifecycle
  import opened ProtocolReports
  import opened ProtocolFrees
  import opened ProtocolLazy
  import opened ProtocolSafety
  import opened ProtocolStores
  import Kahn

  ghost predicate Reachable(g: Graph, workers: set<Worker>, s: State) {
    exists steps :: Run(g, Init(workers), steps, s)
  }

  lemma ReachableSafe(g: Graph, workers: set<Worker>, s: State)
    requires WellFormed(g) && Separate(g) && Composes(g) && Reachable(g, workers, s)
    ensures Safe(g, s) && StoresOk(g, s)
  {
    var steps :| Run(g, Init(workers), steps, s);
    InitSafe(g, workers);
    InitStores(g, workers);
    RunSafe(g, Init(workers), steps, s);
    RunStores(g, Init(workers), steps, s);
  }

  // ---------------------------------------------------------------- tensors

  /** A task under way in a worker: delivered or running. */
  ghost predicate UnderWay(x: WorkerState, j: Job) {
    j in x.running || exists m :: m in x.inbox && j in m.jobs
  }

  lemma UnderWayFacts(g: Graph, s: State, w: Worker, j: Job)
    requires Safe(g, s) && w in s.ws && UnderWay(s.ws[w], j)
    ensures j.node in Open(g, s.c) && j.node in g && j.worker == w && JobOk(g, s.c.holders, j)
  {
    hide LazyOk, FinishedExactly, ReadyExactly, Lifecycle;
    SafeParts(g, s, w);
    var x := s.ws[w];
    JobNodesMembers(x.running);
    if j !in x.running {
      var m :| m in x.inbox && j in m.jobs;
      InboxMember(x.inbox, m, j);
    }
    assert JobOk(g, s.c.holders, s.c.sent[j.node]);
  }

  lemma {:induction false} InboxMember(inbox: seq<Message>, m: Message, j: Job)
    requires m in inbox && j in m.jobs
    ensures j.node in InboxNodes(inbox)
  {
    if inbox[0] == m {
      JobNodesMembers(m.jobs);
    } else {
      assert inbox == [inbox[0]] + inbox[1..];
      InboxMember(inbox[1..], m, j);
    }
  }

  /**
   * Fetching is always safe: whatever a delivered or running task reads is located, or awaited
   * lazily, and every worker named as a location still holds the tensor.
   */
  lemma FetchIsSafe(g: Graph, workers: set<Worker>, s: State, w: Worker, j: Job)
    requires WellFormed(g) && Separate(g) && Composes(g) && Reachable(g, workers, s) && w in s.ws
               && UnderWay(s.ws[w], j)
    ensures j.node in g && EagerSet(g[j.node]) <= j.locations.Keys && ReadSet(g[j.node]) <= j.locations.Keys + j.waiting
    ensures forall t, source | t in j.locations && source in j.locations[t] :: source in s.ws && t in s.ws[source].store
    ensures forall t | t in j.locations :: j.locations[t] != {}
  {
    ReachableSafe(g, workers, s);
    UnderWayFacts(g, s, w, j);
    forall t, source | t in j.locations && source in j.locations[t] ensures source in s.ws && t in s.ws[source].store {
      HolderHolds(g, s, j.node, t, source);
    }
    UnderWayEager(g, s, w, j);
  }

  /** A recorded holder has the tensor as long as a reader has not been accounted for. */
  lemma HolderHolds(g: Graph, s: State, n: NodeId, t: TensorId, source: Worker)
    requires Safe(g, s) && n in Open(g, s.c) && t in ReadSet(g[n]) && t in s.c.holders && source in s.c.holders[t]
    ensures source in s.ws && t in s.ws[source].store
  {
    hide Lifecycle, LazyOk, FinishedExactly, ReadyExactly, Consistent;
    OpenNotRetired(g, s.c, n, t);
    assert source in s.ws;
    assert WorkerOk(g, s.c, source, s.ws[source]);
  }

  lemma UnderWayEager(g: Graph, s: State, w: Worker, j: Job)
    requires WellFormed(g) && Separate(g) && Safe(g, s) && w in s.ws && UnderWay(s.ws[w], j)
    requires j.node in g && JobOk(g, s.c.holders, j)
    ensures EagerSet(g[j.node]) <= j.locations.Keys
  {
    forall t | t in EagerSet(g[j.node]) ensures t !in j.waiting {
      if t in LazySet(g[j.node]) { NotBoth(g, j.node, t); }
    }
    assert EagerSet(g[j.node]) <= ReadSet(g[j.node]);
  }

  lemma NotBoth(g: Graph, n: NodeId, t: TensorId)
    requires WellFormed(g) && n in g && t in LazySet(g[n]) && t in EagerSet(g[n])
    ensures !SeparateAt(g, n)
  {
    assert t in ReadSet(g[n]) && HasProducer(g, n, t);
    var m :| m in g && m != n && m.request == n.request && t in g[m].outputs;
    assert t in g[m].outputs * LazySet(g[n]) && t in g[m].outputs * EagerSet(g[n]);
    assert m in ProducersOf(g, n, LazySet(g[n])) * ProducersOf(g, n, EagerSet(g[n]));
  }

  /** The source named by a lazy notification still holds the tensor until the task's reads are accounted for. */
  lemma LazyFetchIsSafe(g: Graph, workers: set<Worker>, s: State, m: Notice)
    requires WellFormed(g) && Separate(g) && Composes(g) && Reachable(g, workers, s) && m in s.c.notices
               && m.node !in Processed(s.c)
    ensures m.source in s.ws && m.tensor in s.ws[m.source].store
  {
    ReachableSafe(g, workers, s);
    assert m.node in s.c.sent && m.tensor in s.c.sent[m.node].waiting;
    assert JobOk(g, s.c.holders, s.c.sent[m.node]);
    LazyIsRead(g[m.node], m.tensor);
    HolderHolds(g, s, m.node, m.tensor, m.source);
  }

  /** Starting a task group frees only tensors all of whose readers are accounted for. */
  lemma FreeIsSafe(g: Graph, workers: set<Worker>, s: State, w: Worker, t: TensorId, n: NodeId)
    requires WellFormed(g) && Separate(g) && Composes(g) && Reachable(g, workers, s) && w in s.ws && s.ws[w].inbox != []
    requires t in s.ws[w].inbox[0].frees && n in g && t in ReadSet(g[n])
    ensures n in s.c.completed && n in Processed(s.c)
  {
    hide Safe, StoresOk, Reachable, Retired;
    ReachableSafe(g, workers, s);
    SafeFreed(g, s, w);
    SafeReferences(g, s);
    AllReadersDone(g, s.c, t, n);
  }

  lemma SafeReferences(g: Graph, s: State)
    requires Safe(g, s)
    ensures References(g, s.c)
  {
  }

  lemma AllReadersDone(g: Graph, c: Coord, t: TensorId, n: NodeId)
    requires WellFormed(g) && References(g, c) && Retired(c, t) && n in g && t in ReadSet(g[n])
    ensures n in c.completed && n in Processed(c)
  {
    hide ReadSet, References, Retired;
    RetiredMeans(g, c, t);
    var m :| m in ArrivedNodes(g, c) && t in ReadSet(g[m]);
    assert n.request == t.request == m.request;
    assert n in ArrivedNodes(g, c);
  }

  /** A starting task group finds what it was told is here, after the frees that came with it. */
  lemma StartFindsAll(g: Graph, workers: set<Worker>, s: State, w: Worker, j: Job, t: TensorId)
    requires WellFormed(g) && Separate(g) && Composes(g) && Reachable(g, workers, s) && Enabled(g, s, StartStep(w))
    requires j in s.ws[w].inbox[0].jobs && t in j.locations && w in j.locations[t]
    ensures t in s.ws[w].store && t !in s.ws[w].inbox[0].frees
  {
    var m := s.ws[w].inbox[0];
    assert m in s.ws[w].inbox && UnderWay(s.ws[w], j);
    FetchIsSafe(g, workers, s, w, j);
    ReachableSafe(g, workers, s);
    UnderWayFacts(g, s, w, j);
    if t in m.frees { FreeIsSafe(g, workers, s, w, t, j.node); }
  }

  /**
   * Every recorded holder of a tensor is told once to free it when its last reader is accounted for,
   * and never otherwise.
   */
  lemma ToldExactlyOnce(g: Graph, workers: set<Worker>, s: State, w: Worker)
    requires WellFormed(g) && Separate(g) && Composes(g) && Reachable(g, workers, s) && w in s.ws
    ensures Distinct(ToldTo(s.c, w, s.ws[w]))
    ensures forall t :: t in ToldTo(s.c, w, s.ws[w]) <==>
              && t in s.c.holders && w in s.c.holders[t]
              && t in ReadTensors(g, ArrivedNodes(g, s.c))
                && forall n | n in g && t in ReadSet(g[n]) :: n in Processed(s.c)
  {
    hide *;
    ReachableSafe(g, workers, s);
    WorkerTold(g, s, w);
    ToldMeans(s.c, w, s.ws[w]);
    forall t
      ensures Retired(s.c, t) <==>
                t in ReadTensors(g, ArrivedNodes(g, s.c))
                && forall n | n in g && t in ReadSet(g[n]) :: n in Processed(s.c)
    {
      RetiredIff(g, s.c, t);
    }
  }

  lemma WorkerTold(g: Graph, s: State, w: Worker)
    requires Safe(g, s) && w in s.ws
    ensures References(g, s.c) && ToldExactly(s.c, w, s.ws[w])
  {
    assert WorkerOk(g, s.c, w, s.ws[w]);
  }

  lemma ToldMeans(c: Coord, w: Worker, x: WorkerState)
    requires ToldExactly(c, w, x)
    ensures Distinct(ToldTo(c, w, x))
    ensures forall t :: t in ToldTo(c, w, x) <==> t in c.holders && w in c.holders[t] && Retired(c, t)
  {
    hide ToldTo;
  }

  lemma RetiredIff(g: Graph, c: Coord, t: TensorId)
    requires WellFormed(g) && References(g, c)
    ensures Retired(c, t) <==>
              t in ReadTensors(g, ArrivedNodes(g, c)) && forall n | n in g && t in ReadSet(g[n]) :: n in Processed(c)
  {
    if t in ReadTensors(g, ArrivedNodes(g, c)) {
      var m :| m in ArrivedNodes(g, c) && m in g && t in ReadSet(g[m]);
      if Retired(c, t) {
        RetiredMeans(g, c, t);
      } else {
        assert ReadersOf(g, Open(g, c), t) != {};
        var p :| p in ReadersOf(g, Open(g, c), t);
        assert p.0 in Open(g, c) && t in ReadSet(g[p.0]);
      }
    }
  }

  /**
   * Nothing is leaked: once a worker has reported everything, each consumed tensor still in its
   * store is on its way to being freed, and it is there once.
   */
  lemma NoLeak(g: Graph, workers: set<Worker>, s: State, w: Worker, t: TensorId)
    requires WellFormed(g) && Separate(g) && Composes(g) && Reachable(g, workers, s) && w in s.ws
    requires s.ws[w].running == [] && s.ws[w].outbox == [] && t in s.ws[w].store && Retired(s.c, t)
    ensures t in InboxFrees(s.ws[w].inbox) + FreeListOf(s.c, w) && t !in s.ws[w].freed
  {
    ReachableSafe(g, workers, s);
    assert WorkerOk(g, s.c, w, s.ws[w]) && Accounted(s.c, w, s.ws[w]) && Clean(s.ws[w]);
    assert Reported(s.ws[w].outbox) == {};
    assert !CopiedBy(s.ws[w].running, t);
    assert t in ToldTo(s.c, w, s.ws[w]);
  }

  // ---------------------------------------------------------------- lazy inputs

  /** No lost wake-up, over all interleavings. */
  lemma LazyWakeUp(g: Graph, workers: set<Worker>, s: State, n: NodeId, t: TensorId)
    requires WellFormed(g) && Separate(g) && Composes(g) && Reachable(g, workers, s) && n in g && n in s.c.sent
               && t in LazySet(g[n])
    ensures var attached, registered, notified := t in s.c.sent[n].locations,
              (n, s.c.sent[n].worker) in WaitersOf(s.c, t), Noticed(s.c, n, t);
            && (attached || registered || notified)
            && !(attached && registered) && !(attached && notified) && !(registered && notified)
            && (registered && t in s.c.holders ==> NotifyPending(s.c, t))
            && OncePerTensor(s.c.notices)
  {
    ReachableSafe(g, workers, s);
    assert JobOk(g, s.c.holders, s.c.sent[n]);
    LazyTrichotomy(g, s.c, n, t);
  }

  // ---------------------------------------------------------------- dispatch

  /** Any finite set can be listed. */
  lemma {:induction false} Listing<T(!new)>(all: set<T>) returns (listing: seq<T>)
    ensures Lists(listing, all)
  {
    if all == {} {
      listing := [];
    } else {
      var x :| x in all;
      var rest := Listing(all - {x});
      listing := rest + [x];
    }
  }

  /**
   * Every queued task can be sent, in every state any run reaches, if and only if no node reads
   * tensors of its request lazily only.
   */
  lemma DispatchNeverFails(g: Graph, workers: set<Worker>)
    requires WellFormed(g) && Separate(g)
    ensures (forall s, n | Reachable(g, workers, s) && n in g && n in s.c.ready :: Composable(g, s.c, n)) <==>
              Composes(g)
  {
    if Composes(g) {
      forall s, n | Reachable(g, workers, s) && n in g && n in s.c.ready ensures Composable(g, s.c, n) {
        ReachableSafe(g, workers, s);
        ReadyComposable(g, s, n);
      }
    } else {
      var n :| n in g && LazySet(g[n]) != {} && EagerSet(g[n]) == {};
      var s := QueuedTooEarly(g, workers, n);
    }
  }

  /** A node that waits for nothing is queued when its request arrives, before any tensor is recorded. */
  lemma QueuedTooEarly(g: Graph, workers: set<Worker>, n: NodeId) returns (s: State)
    requires WellFormed(g) && Separate(g) && n in g && LazySet(g[n]) != {} && EagerSet(g[n]) == {}
    ensures Reachable(g, workers, s) && s.ws == Init(workers).ws && s.c.sent == map[] && s.c.completed == {}
              && s.c.finished == {}
    ensures n in s.c.ready && n in s.c.scheduled && !Composable(g, s.c, n)
  {
    var init := Init(workers);
    NonLazyIsExact(g, n);
    assert SeparateAt(g, n);
    assert NonLazyPrerequisites(g, n) == {};
    var batch := Listing(NewlyReady(g, init.c, NodesOf(g, n.request)));
    var steps := [SubmitStep(n.request, batch)];
    s := Apply(g, init, steps[0]);
    assert steps[1..] == [];
    assert Run(g, s, steps[1..], s);
    assert Run(g, init, steps, s);
    assert n in batch;
  }

  // ---------------------------------------------------------------- tasks that are lost

  /** A queued task that is with nobody any more. */
  ghost predicate Lost(s: State, n: NodeId) {
    && n in s.c.scheduled && n !in s.c.ready && n !in s.c.completed && n.request !in s.c.finished
    && forall w | w in s.ws :: n !in Pipeline(s.ws[w])
  }

  /** Sending a group in which one lookup fails loses all of it, if nothing has failed before. */
  lemma FailedDispatchLoses(g: Graph, s: State, w: Worker, group: seq<NodeId>, n: NodeId)
    requires Safe(g, s) && Enabled(g, s, DispatchStep(w, group)) && !AllComposable(g, s.c, group) && n in group
    ensures Lost(Apply(g, s, DispatchStep(w, group)), n)
    ensures FreeListOf(Apply(g, s, DispatchStep(w, group)).c, w) == []
  {
    WithoutGroup(s.c.ready, group);
    assert n in s.c.scheduled && n !in s.c.sent;
    assert n.request !in s.c.finished by {
      assert n in NodesOf(g, n.request);
    }
    forall v | v in s.ws ensures n !in Pipeline(s.ws[v]) {
      assert Piped(s.c, v, Pipelines(s.ws)[v]);
    }
  }

  lemma {:induction false} WithoutGroup(s: seq<NodeId>, group: seq<NodeId>)
    ensures forall n | n in Without(s, group) :: n in s && n !in group
  {
    if s != [] { WithoutGroup(s[1..], group); }
  }

  /** A lost task stays lost in every run, so its request is never declared finished. */
  lemma {:induction false} LostForever(g: Graph, s: State, steps: seq<Step>, s': State, n: NodeId)
    requires n in g && Lost(s, n) && Run(g, s, steps, s')
    ensures Lost(s', n)
    decreases |steps|
  {
    hide Lost;
    if steps != [] {
      StepKeepsLost(g, s, steps[0], n);
      LostForever(g, Apply(g, s, steps[0]), steps[1..], s', n);
    }
  }

  lemma StepKeepsLost(g: Graph, s: State, step: Step, n: NodeId)
    requires n in g && Lost(s, n) && Enabled(g, s, step)
    ensures Lost(Apply(g, s, step), n)
  {
    hide Pipeline, Start, Emit, Finish, NewlyReady, Without, Drop, ReceiveDone;
    var s' := Apply(g, s, step);
    TablesKeepLost(g, s, step, n);
    forall w | w in s'.ws ensures n !in Pipeline(s'.ws[w]) {
      assert n !in Pipeline(s.ws[w]);
      WorkerKeepsLost(g, s, step, n, w);
    }
  }

  /** The coordinator queues no task twice, and completes none that is in no pipeline. */
  lemma TablesKeepLost(g: Graph, s: State, step: Step, n: NodeId)
    requires n in g && Lost(s, n) && Enabled(g, s, step)
    ensures var c := Apply(g, s, step).c;
            n in c.scheduled && n !in c.ready && n !in c.completed && n.request !in c.finished
  {
    match step
    case DoneStep(w, batch) =>
      hide Pipeline, NewlyReady;
      var x := s.ws[w];
      PopFromPipeline(x);
      assert x.outbox[0].node in Pipeline(x);
      assert n !in batch;
      NotDeclared(g, Enqueue(Complete(s.c, x.outbox[0].node), batch), x.outbox[0].node.request, n);
    case DispatchStep(w, group) =>
      hide Pipeline, JobsFor, NewWaiters, Awaited, Composable;
      WithoutGroup(s.c.ready, group);
    case _ =>
      hide Pipeline;
  }

  lemma NotDeclared(g: Graph, c: Coord, request: nat, n: NodeId)
    requires n in g && n !in c.completed && n.request !in c.finished
    ensures n.request !in CheckFinished(g, c, request).finished
  {
    var all := NodesOf(g, request);
    if request == n.request {
      assert n in all;
      Kahn.SubsetSameSize(c.completed * all, all);
    }
  }

  lemma WorkerKeepsLost(g: Graph, s: State, step: Step, n: NodeId, w: Worker)
    requires n in g && Lost(s, n) && Enabled(g, s, step) && w in s.ws
    ensures w in Apply(g, s, step).ws && n !in Pipeline(Apply(g, s, step).ws[w])
  {
    hide Pipeline, Start, Emit, Finish, JobsFor, NewlyReady, Without, Drop, Dispatch, ReceiveDone;
    var x := s.ws[w];
    match step
    case DispatchStep(v, group) =>
      if v == w && AllComposable(g, s.c, group) { AcceptExtendsPipeline(g, s.c, x, w, FreeListOf(s.c, w), group); }
    case TensorStep(v) =>
      if v == w { PopFromPipeline(x); }
    case DoneStep(v, batch) =>
      if v == w { PopFromPipeline(x); }
    case StartStep(v) =>
      if v == w { StartKeepsPipeline(x); }
    case EmitStep(v, m, t) =>
      if v == w { EmitKeepsPipeline(x, m, t); }
    case FinishStep(v, reports) =>
      if v == w { FinishKeepsPipeline(g, x, reports); }
    case AcquireStep(v, job, t) =>
      if v == w { assert Pipeline(x.(store := x.store + {t})) == Pipeline(x) by { AcquireKeepsPipeline(x, t); } }
    case _ =>
  }

  lemma AcquireKeepsPipeline(x: WorkerState, t: TensorId)
    ensures Pipeline(x.(store := x.store + {t})) == Pipeline(x)
  {
  }

  /** A task whose inputs are all lazy, and its producer. */
  function LazyGraph(): Graph {
    map[NodeId(0, 0) := Node(map[], {TensorId(0, 0)}),
        NodeId(0, 1) := Node(map["x" := Input(TensorId(0, 0), true, true)], {})]
  }

  lemma LazyGraphFacts()
    ensures var g, c, t := LazyGraph(), NodeId(0, 1), TensorId(0, 0);
            WellFormed(g) && Separate(g) && LazySet(g[c]) == {t} && EagerSet(g[c]) == {}
  {
    var g, p, c, t := LazyGraph(), NodeId(0, 0), NodeId(0, 1), TensorId(0, 0);
    assert g[c].inputs["x"] == Input(t, true, true);
    assert ReadSet(g[c]) == LazySet(g[c]) == {t}
        && ReadSet(g[p]) == LazySet(g[p]) == EagerSet(g[c]) == EagerSet(g[p]) == {};
    assert HasProducer(g, c, t);
    forall n | n in g ensures SeparateAt(g, n) {
      assert forall m | m in g :: g[m].outputs * EagerSet(g[n]) == {};
    }
  }

  lemma ReachableStep(g: Graph, workers: set<Worker>, s: State, step: Step)
    requires Reachable(g, workers, s) && Enabled(g, s, step)
    ensures Reachable(g, workers, Apply(g, s, step))
  {
    var steps :| Run(g, Init(workers), steps, s);
    RunOneMore(g, Init(workers), steps, s, step);
  }

  lemma {:induction false} RunOneMore(g: Graph, s: State, steps: seq<Step>, s': State, step: Step)
    requires Run(g, s, steps, s') && Enabled(g, s', step)
    ensures Run(g, s, steps + [step], Apply(g, s', step))
    decreases |steps|
  {
    if steps == [] {
      assert ([step])[1..] == [];
      assert steps + [step] == [step];
      assert Run(g, Apply(g, s', step), [], Apply(g, s', step));
    } else {
      RunOneMore(g, Apply(g, s, steps[0]), steps[1..], s', step);
      assert (steps + [step])[1..] == steps[1..] + [step];
    }
  }

  /** The first task that waits for nothing and reads only lazily is lost when it is sent at once, to any worker. */
  lemma SentTooEarly(g: Graph, workers: set<Worker>, w: Worker, n: NodeId) returns (s: State)
    requires WellFormed(g) && Separate(g) && w in workers && n in g && LazySet(g[n]) != {} && EagerSet(g[n]) == {}
    ensures Reachable(g, workers, s) && Lost(s, n)
  {
    var early := QueuedTooEarly(g, workers, n);
    var step := DispatchStep(w, [n]);
    assert !AllComposable(g, early.c, [n]);
    assert Enabled(g, early, step);
    s := Apply(g, early, step);
    ReachableStep(g, workers, early, step);
    WithoutGroup(early.c.ready, [n]);
  }

  /** Some run loses a task if and only if some node reads tensors of its request lazily only. */
  lemma TasksAreLostExactly(g: Graph, workers: set<Worker>)
    requires WellFormed(g) && Separate(g) && workers != {}
    ensures (exists s, n :: Reachable(g, workers, s) && n in g && Lost(s, n)) <==> !Composes(g)
  {
    if Composes(g) {
      forall s, n | Reachable(g, workers, s) && n in g ensures !Lost(s, n) {
        ReachableSafe(g, workers, s);
        NobodysIsNot(g, s, n);
      }
    } else {
      var n :| n in g && LazySet(g[n]) != {} && EagerSet(g[n]) == {};
      var w :| w in workers;
      var s := SentTooEarly(g, workers, w, n);
    }
  }

  lemma NobodysIsNot(g: Graph, s: State, n: NodeId)
    requires Safe(g, s)
    ensures !Lost(s, n)
  {
    if n in s.c.scheduled && n !in s.c.ready && n !in s.c.completed {
      assert n in Pipelines(s.ws)[s.c.sent[n].worker];
    }
  }

  /** In the example the consumer can be lost, and then its request is never declared finished. */
  lemma LazyFirstIsLost(workers: set<Worker>, w: Worker)
    requires w in workers
    ensures var g, c := LazyGraph(), NodeId(0, 1);
            && WellFormed(g) && Separate(g)
            && exists s :: Reachable(g, workers, s) && Lost(s, c)
                           && forall steps, end | Run(g, s, steps, end) :: c !in end.c.completed && 0 !in end.c.finished
  {
    var g, c := LazyGraph(), NodeId(0, 1);
    LazyGraphFacts();
    var s := SentTooEarly(g, workers, w, c);
    forall steps, end | Run(g, s, steps, end) ensures c !in end.c.completed && 0 !in end.c.finished {
      LostForever(g, s, steps, end, c);
    }
  }

  // ---------------------------------------------------------------- tasks and requests

  /** The nodes put into the task queue in the course of a run. */
  function Queued(steps: seq<Step>): seq<NodeId> {
    if steps == [] then []
    else (if steps[0].SubmitStep? || steps[0].DoneStep? then steps[0].batch else []) + Queued(steps[1..])
  }

  /** No node is ever queued twice, and what is queued is what is scheduled. */
  lemma {:induction false} QueuedOnce(g: Graph, s: State, steps: seq<Step>, s': State)
    requires Run(g, s, steps, s')
    ensures Distinct(Queued(steps)) && forall n | n in Queued(steps) :: n !in s.c.scheduled
    ensures forall n :: n in s'.c.scheduled <==> n in s.c.scheduled || n in Queued(steps)
    decreases |steps|
  {
    if steps != [] {
      var step, s1 := steps[0], Apply(g, s, steps[0]);
      QueuedOnce(g, s1, steps[1..], s');
      if step.SubmitStep? || step.DoneStep? {
        BatchQueued(g, s, step);
        Concat(step.batch, Queued(steps[1..]));
      } else {
        assert s1.c.scheduled == s.c.scheduled;
      }
    }
  }

  lemma BatchQueued(g: Graph, s: State, step: Step)
    requires Enabled(g, s, step) && (step.SubmitStep? || step.DoneStep?)
    ensures Distinct(step.batch) && forall n | n in step.batch :: n !in s.c.scheduled
    ensures Apply(g, s, step).c.scheduled == s.c.scheduled + set n | n in step.batch
  {
  }

  /** Each node is queued at most once in any run, and exactly when its non-lazy prerequisites have all completed. */
  lemma QueueingIsExact(g: Graph, workers: set<Worker>, steps: seq<Step>, s: State)
    requires WellFormed(g) && Separate(g) && Composes(g) && Run(g, Init(workers), steps, s)
    ensures Distinct(Queued(steps))
    ensures forall n :: n in Queued(steps) <==>
              n in g && n.request in s.c.arrived && NonLazyPrerequisites(g, n) <= s.c.completed
  {
    ReachableSafe(g, workers, s);
    QueuedOnce(g, Init(workers), steps, s);
    forall n
      ensures n in s.c.scheduled <==> n in g && n.request in s.c.arrived && NonLazyPrerequisites(g, n) <= s.c.completed
    {
      if n in s.c.scheduled { assert n in g && n.request in s.c.arrived; }
    }
  }

  /** While an acyclic request is unfinished, one of its queued tasks is. */
  lemma SomethingToDo(g: Graph, workers: set<Worker>, s: State, request: nat)
    requires WellFormed(g) && Separate(g) && Composes(g) && Reachable(g, workers, s)
    requires request in s.c.arrived && Acyclic(g, request) && !(NodesOf(g, request) <= s.c.completed)
    ensures exists n :: n in NodesOf(g, request) && n in s.c.scheduled && n !in s.c.completed
                        && (n in s.c.ready || (n in s.c.sent && s.c.sent[n].worker in s.ws
                                               && n in Pipeline(s.ws[s.c.sent[n].worker])))
  {
    ReachableSafe(g, workers, s);
    NeverStuck(g, s.c, Pipelines(s.ws), request);
  }

  /**
   * No deadlock: while an acyclic request without lazy inputs is unfinished and there is a worker,
   * the coordinator can send a task, or a worker can start, finish or be heard.
   */
  lemma NoDeadlock(g: Graph, workers: set<Worker>, s: State, request: nat) returns (step: Step)
    requires WellFormed(g) && Separate(g) && Reachable(g, workers, s) && workers != {}
    requires forall n | n in g :: LazySet(g[n]) == {}
    requires request in s.c.arrived && Acyclic(g, request) && !(NodesOf(g, request) <= s.c.completed)
    ensures Enabled(g, s, step) && !step.SubmitStep?
  {
    ReachableSafe(g, workers, s);
    SomethingToDo(g, workers, s, request);
    SameWorkers(g, workers, s);
    var n :| n in NodesOf(g, request) && n in s.c.scheduled && n !in s.c.completed
             && (n in s.c.ready || (n in s.c.sent && s.c.sent[n].worker in s.ws
                                    && n in Pipeline(s.ws[s.c.sent[n].worker])));
    if n in s.c.ready {
      var w :| w in s.ws;
      step := DispatchStep(w, [n]);
    } else {
      step := WorkerCanStep(g, s, s.c.sent[n].worker, n);
    }
  }

  lemma SameWorkers(g: Graph, workers: set<Worker>, s: State)
    requires Reachable(g, workers, s)
    ensures s.ws.Keys == workers
  {
    var steps :| Run(g, Init(workers), steps, s);
    RunKeepsWorkers(g, Init(workers), steps, s);
  }

  lemma {:induction false} RunKeepsWorkers(g: Graph, s: State, steps: seq<Step>, s': State)
    requires Run(g, s, steps, s')
    ensures s'.ws.Keys == s.ws.Keys
    decreases |steps|
  {
    hide Start, Finish, Emit, Drop, Dispatch;
    if steps != [] { RunKeepsWorkers(g, Apply(g, s, steps[0]), steps[1..], s'); }
  }

  /** A worker with something in its pipeline is not stuck: nothing it runs waits lazily. */
  lemma WorkerCanStep(g: Graph, s: State, w: Worker, n: NodeId) returns (step: Step)
    requires Safe(g, s) && w in s.ws && n in Pipeline(s.ws[w]) && forall m | m in g :: LazySet(g[m]) == {}
    ensures Enabled(g, s, step) && !step.SubmitStep?
  {
    hide Safe, Lists;
    var x := s.ws[w];
    if x.outbox != [] {
      if x.outbox[0].Tensor? {
        step := TensorStep(w);
      } else {
        var batch := Listing(NewlyReady(g, Complete(s.c, x.outbox[0].node), Successors(g, x.outbox[0].node)));
        step := DoneStep(w, batch);
      }
    } else if x.running != [] {
      var j := x.running[0];
      UnderWayFacts(g, s, w, j);
      var reports := Listing(Owed(g, x, j));
      step := FinishStep(w, reports);
    } else {
      step := StartStep(w);
    }
  }

  /** A request is declared finished exactly when it has nodes and all of them have completed. */
  lemma FinishedMeansDone(g: Graph, workers: set<Worker>, s: State, request: nat)
    requires WellFormed(g) && Separate(g) && Composes(g) && Reachable(g, workers, s)
    ensures request in s.c.finished <==> NodesOf(g, request) != {} && NodesOf(g, request) <= s.c.completed
  {
    ReachableSafe(g, workers, s);
  }

  /** Each completion is of a node not completed before, so unfinished nodes only ever decrease. */
  lemma CompletionsProgress(g: Graph, workers: set<Worker>, s: State, step: Step)
    requires WellFormed(g) && Separate(g) && Composes(g) && Reachable(g, workers, s) && Enabled(g, s, step)
    ensures s.c.completed <= Apply(g, s, step).c.completed
    ensures step.DoneStep? ==> g.Keys - Apply(g, s, step).c.completed < g.Keys - s.c.completed
  {
    hide Safe, StoresOk, Reachable, NewlyReady, Unused, ToFree;
    if step.DoneStep? {
      ReachableSafe(g, workers, s);
      DoneTasks(g, s, step.w, step.batch);
      assert s.ws[step.w].outbox[0].node in g.Keys - s.c.completed;
    }
  }
}
