/** Every step keeps the invariant, so every run does; what it means for tasks, tensors and requests. */
module ProtocolSafety {
  import opened Wrappers
  import opened TaskGraphs
  import opened Protocol
  import opened ProtocolLifecycle
  import opened ProtocolReports
  import opened ProtocolFrees
  import opened ProtocolLazy

  /** Sent tasks name where their tensors are. */
  ghost predicate SentOk(g: Graph, c: Coord, workers: set<Worker>) {
    forall n | n in c.sent :: c.sent[n].node == n && c.sent[n].worker in workers && JobOk(g, c.holders, c.sent[n])
  }

  ghost predicate HoldersOk(c: Coord, workers: set<Worker>) {
    forall t | t in c.holders :: {} != c.holders[t] <= workers
  }

  ghost predicate WorkerOk(g: Graph, c: Coord, w: Worker, x: WorkerState) {
    Consistent(g, c, w, x) && ToldExactly(c, w, x) && Holds(c, w, x) && HoldsReported(c, x)
  }

  ghost predicate Tables(g: Graph, c: Coord, workers: set<Worker>) {
    References(g, c) && RecordedAfter(g, c) && Unborn(g, c) && SentOk(g, c, workers) && HoldersOk(c, workers)
  }

  ghost predicate Tasks(g: Graph, s: State) {
    Lifecycle(g, s.c, Pipelines(s.ws)) && ReadyExactly(g, s.c) && FinishedExactly(g, s.c)
  }

  /** The invariant of every reachable state. */
  ghost predicate Safe(g: Graph, s: State) {
    && Tasks(g, s) && Tables(g, s.c, s.ws.Keys) && LazyOk(s.c)
    && forall w | w in s.ws :: WorkerOk(g, s.c, w, s.ws[w])
  }

  lemma InitSafe(g: Graph, workers: set<Worker>)
    ensures Safe(g, Init(workers))
  {
    hide WorkerOk, Tables, Tasks;
    var s := Init(workers);
    assert s.ws.Keys == workers;
    InitTables(g, workers);
    InitTasks(g, workers);
    forall w | w in s.ws ensures WorkerOk(g, s.c, w, s.ws[w]) {
      IdleOk(g, s.c, w);
    }
  }

  lemma InitTables(g: Graph, workers: set<Worker>)
    ensures Tables(g, Init(workers).c, workers) && LazyOk(Init(workers).c)
  {
    assert ReadTensors(g, ArrivedNodes(g, Init(workers).c)) == {};
  }

  lemma InitTasks(g: Graph, workers: set<Worker>)
    ensures Tasks(g, Init(workers))
  {
    var s := Init(workers);
    forall w | w in s.ws ensures Pipelines(s.ws)[w] == [] {
      assert Pipeline(IDLE) == [];
    }
    forall r | NodesOf(g, r) != {} ensures !(NodesOf(g, r) <= s.c.completed) {}
  }

  lemma IdleOk(g: Graph, c: Coord, w: Worker)
    requires c.holders == map[] && c.refs == map[] && c.freeList == map[]
    ensures WorkerOk(g, c, w, IDLE)
  {
    assert ToldTo(c, w, IDLE) == [];
    assert JobNodes(IDLE.running) == [] && InboxNodes(IDLE.inbox) == [];
  }

  // ---------------------------------------------------------------- facts about one state

  lemma OpenPipeline(g: Graph, c: Coord, pipes: map<Worker, seq<NodeId>>, w: Worker)
    requires Lifecycle(g, c, pipes) && w in pipes
    ensures forall n | n in pipes[w] :: n in c.sent && c.sent[n].worker == w && n !in c.completed && n in Open(g, c)
  {
    assert Piped(c, w, pipes[w]);
  }

  lemma UpdatesOpen(g: Graph, c: Coord, pipes: map<Worker, seq<NodeId>>, n: NodeId)
    requires Lifecycle(g, c, pipes) && n in c.updates
    ensures n in Open(g, c)
  {
  }

  /** When a task is sent, all it reads is located or awaited lazily. */
  lemma DispatchedJobOk(g: Graph, c: Coord, workers: set<Worker>, w: Worker, n: NodeId)
    requires WellFormed(g) && Separate(g) && n in g && NonLazyPrerequisites(g, n) <= c.completed
    requires RecordedAfter(g, c) && HoldersOk(c, workers)
    ensures JobOk(g, c.holders, JobFor(g, c, w, n))
  {
    var j := JobFor(g, c, w, n);
    forall t | t in ReadSet(g[n]) ensures t in c.holders || t in LazySet(g[n]) {
      if t !in LazySet(g[n]) {
        assert t in EagerSet(g[n]);
        EagerProducerAwaited(g, n, t);
        var m :| m in NonLazyPrerequisites(g, n) && t in g[m].outputs;
        assert m in c.completed;
      }
    }
  }

  /** A task not yet sent has left no trace in any worker. */
  lemma UnbornInOutbox(g: Graph, c: Coord, w: Worker, x: WorkerState, group: seq<NodeId>)
    requires WellFormed(g) && Consistent(g, c, w, x) && Unborn(g, c)
    requires forall n | n in Pipeline(x) :: n in c.sent
    requires forall n | n in group :: n in g && n !in c.sent
    ensures UnbornAt(g, Known(c, x), group)
  {
    AttributedMeans(x.outbox, set n | n in JobNodes(x.running));
    forall p, t | p in group && t in g[p].outputs ensures t !in Known(c, x) {
      if t in Reported(x.outbox) && t !in c.holders {
        ReportedIsKnown(g, c.holders.Keys, x.outbox, t);
      }
    }
  }

  // ---------------------------------------------------------------- worker steps

  /** A worker step that keeps its pipeline and its part of the invariant. */
  lemma WorkerStepSafe(g: Graph, s: State, w: Worker, x': WorkerState)
    requires Safe(g, s) && w in s.ws && Pipeline(x') == Pipeline(s.ws[w]) && WorkerOk(g, s.c, w, x')
    ensures Safe(g, s.(ws := s.ws[w := x']))
  {
    hide Lifecycle, ReadyExactly, FinishedExactly, Tables, LazyOk, WorkerOk, Pipeline;
    assert Pipelines(s.ws[w := x']) == Pipelines(s.ws);
    assert s.ws[w := x'].Keys == s.ws.Keys;
  }

  lemma StartSafe(g: Graph, s: State, w: Worker)
    requires Safe(g, s) && w in s.ws && s.ws[w].running == [] && s.ws[w].inbox != []
    ensures Safe(g, s.(ws := s.ws[w := Start(s.ws[w])]))
  {
    hide Safe, Start, Consistent, ToldExactly, Holds, HoldsReported;
    var x := s.ws[w];
    SafeParts(g, s, w);
    StartKeepsPipeline(x);
    StartConsistent(g, s.c, w, x);
    StartFrees(s.c, w, x);
    WorkerStepSafe(g, s, w, Start(x));
  }

  lemma SafeParts(g: Graph, s: State, w: Worker)
    requires Safe(g, s) && w in s.ws
    ensures WorkerOk(g, s.c, w, s.ws[w]) && Tables(g, s.c, s.ws.Keys) && LazyOk(s.c) && Tasks(g, s)
    ensures Distinct(Pipeline(s.ws[w]))
    ensures forall n | n in Pipeline(s.ws[w]) ::
              n in s.c.sent && s.c.sent[n].worker == w && n !in s.c.completed && n in Open(g, s.c)
  {
    assert Pipelines(s.ws)[w] == Pipeline(s.ws[w]);
    assert Piped(s.c, w, Pipelines(s.ws)[w]);
    OpenPipeline(g, s.c, Pipelines(s.ws), w);
  }

  lemma EmitSafe(g: Graph, s: State, w: Worker, n: NodeId, t: TensorId)
    requires WellFormed(g) && Safe(g, s) && w in s.ws && n in g && t in g[n].outputs && t !in s.ws[w].emitted
    requires exists j :: j in s.ws[w].running && j.node == n
    ensures Safe(g, s.(ws := s.ws[w := Emit(s.ws[w], n, t)]))
  {
    hide Safe, Consistent, Tables, Tasks, LazyOk;
    var x := s.ws[w];
    SafeParts(g, s, w);
    EmitKeepsPipeline(x, n, t);
    JobNodesMembers(x.running);
    EmitConsistent(g, s.c, w, x, n, t);
    assert ToldTo(s.c, w, Emit(x, n, t)) == ToldTo(s.c, w, x);
    WorkerStepSafe(g, s, w, Emit(x, n, t));
  }

  lemma AcquireSafe(g: Graph, s: State, w: Worker, t: TensorId)
    requires Safe(g, s) && w in s.ws && exists m :: m in s.c.notices && m.worker == w && m.tensor == t
    ensures Safe(g, s.(ws := s.ws[w := s.ws[w].(store := s.ws[w].store + {t})]))
  {
    hide Safe, Consistent, Tables, Tasks;
    var x := s.ws[w];
    var x' := x.(store := x.store + {t});
    SafeParts(g, s, w);
    AcquireConsistent(g, s.c, w, x, t);
    assert Pipeline(x') == Pipeline(x) && ToldTo(s.c, w, x') == ToldTo(s.c, w, x);
    WorkerStepSafe(g, s, w, x');
  }

  lemma FinishSafe(g: Graph, s: State, w: Worker, reports: seq<TensorId>)
    requires WellFormed(g) && Safe(g, s) && Enabled(g, s, FinishStep(w, reports))
    ensures Safe(g, s.(ws := s.ws[w := Finish(g, s.ws[w], reports)]))
  {
    hide Safe, Consistent, Tables, Tasks, LazyOk;
    var x := s.ws[w];
    SafeParts(g, s, w);
    RunningOk(g, s, w);
    FinishKeepsPipeline(g, x, reports);
    FinishConsistent(g, s.c, w, x, reports);
    FinishHolds(g, s.c, w, x, reports);
    WorkerStepSafe(g, s, w, Finish(g, x, reports));
  }

  lemma RunningOk(g: Graph, s: State, w: Worker)
    requires Safe(g, s) && w in s.ws
    ensures forall j | j in s.ws[w].running :: JobOk(g, s.c.holders, j) && j.locations.Keys <= s.ws[w].store
  {
    SafeParts(g, s, w);
  }

  lemma FinishHolds(g: Graph, c: Coord, w: Worker, x: WorkerState, reports: seq<TensorId>)
    requires x.running != [] && JobOk(g, c.holders, x.running[0]) && x.running[0].waiting <= x.store
    requires x.running[0].locations.Keys <= x.store && Lists(reports, Owed(g, x, x.running[0]))
    requires ToldExactly(c, w, x) && Holds(c, w, x) && HoldsReported(c, x)
    ensures var x' := Finish(g, x, reports);
            ToldExactly(c, w, x') && Holds(c, w, x') && HoldsReported(c, x')
  {
    var j, x' := x.running[0], Finish(g, x, reports);
    assert ToldTo(c, w, x') == ToldTo(c, w, x);
    forall r | r in x'.outbox && r.Tensor? && !Retired(c, r.tensor) ensures r.tensor in x'.store {
      if r !in x.outbox {
        assert r in TensorReports(j.node, reports);
        assert r.tensor in Owed(g, x, j);
      }
    }
  }

  // ---------------------------------------------------------------- coordinator steps

  lemma SubmitSafe(g: Graph, s: State, request: nat, batch: seq<NodeId>)
    requires WellFormed(g) && Safe(g, s) && Enabled(g, s, SubmitStep(request, batch))
    ensures Safe(g, s.(c := Submit(g, s.c, request, batch)))
  {
    hide Lifecycle, ReadyExactly, WorkerOk, Retired, Tables, CountReaders;
    var c, c' := s.c, Submit(g, s.c, request, batch);
    SubmitLifecycle(g, c, Pipelines(s.ws), request, batch);
    SubmitTables(g, c, s.ws.Keys, Pipelines(s.ws), request, batch);
    SameLazy(c, c');
    forall w | w in s.ws ensures WorkerOk(g, c', w, s.ws[w]) {
      SameWorker(g, c, c', w, s.ws[w]);
    }
  }

  lemma SubmitTables(g: Graph, c: Coord, workers: set<Worker>, pipes: map<Worker, seq<NodeId>>, request: nat,
                     batch: seq<NodeId>)
    requires WellFormed(g) && Tables(g, c, workers) && Lifecycle(g, c, pipes) && request !in c.arrived
    ensures Tables(g, Submit(g, c, request, batch), workers)
    ensures forall t :: Retired(Submit(g, c, request, batch), t) <==> Retired(c, t)
  {
    hide CountReaders;
    SubmitReferences(g, c, request);
    SameTables(g, Register(g, c, request), Submit(g, c, request, batch), workers);
    assert forall t :: Retired(Submit(g, c, request, batch), t) <==> Retired(Register(g, c, request), t);
  }

  /** Tables unchanged but for scheduling. */
  lemma SameTables(g: Graph, c: Coord, c': Coord, workers: set<Worker>)
    requires Tables(g, c, workers) && c'.arrived == c.arrived && c'.refs == c.refs && c'.completed == c.completed
    requires c'.updates == c.updates && c'.holders == c.holders && c'.sent == c.sent
    ensures Tables(g, c', workers)
  {
    assert Open(g, c') == Open(g, c);
    assert ArrivedNodes(g, c') == ArrivedNodes(g, c);
  }

  /** A worker's part of the invariant depends on what was sent, recorded and retired, and on its own free list. */
  lemma SameWorker(g: Graph, c: Coord, c': Coord, w: Worker, x: WorkerState)
    requires WorkerOk(g, c, w, x) && c'.sent == c.sent && c'.holders == c.holders
               && FreeListOf(c', w) == FreeListOf(c, w)
    requires forall t :: Retired(c', t) <==> Retired(c, t)
    ensures WorkerOk(g, c', w, x)
  {
    hide Retired;
    OthersConsistent(g, c, c', w, x);
    SameTold(c, c', w, x);
  }

  lemma SameTold(c: Coord, c': Coord, w: Worker, x: WorkerState)
    requires ToldExactly(c, w, x) && c'.holders == c.holders && FreeListOf(c', w) == FreeListOf(c, w)
    requires forall t :: Retired(c', t) <==> Retired(c, t)
    ensures ToldExactly(c', w, x)
  {
    assert ToldTo(c', w, x) == ToldTo(c, w, x);
    assert Told(c, w) == Told(c', w);
  }

  lemma NotifySafe(g: Graph, s: State, t: TensorId, source: Worker, listing: seq<Notice>)
    requires Safe(g, s) && Enabled(g, s, NotifyStep(t, source, listing))
    ensures Safe(g, s.(c := Notify(s.c, t, source, listing)))
  {
    hide Tables, WorkerOk, Lifecycle, ReadyExactly, FinishedExactly, LazyOk, Lists, NoticesFor;
    var c, c' := s.c, Notify(s.c, t, source, listing);
    NotifyLazy(c, t, source, listing);
    SameTables(g, c, c', s.ws.Keys);
    SameTasks(g, c, c', Pipelines(s.ws));
    forall w | w in s.ws ensures WorkerOk(g, c', w, s.ws[w]) {
      SameWorker(g, c, c', w, s.ws[w]);
    }
  }

  lemma SameTasks(g: Graph, c: Coord, c': Coord, pipes: map<Worker, seq<NodeId>>)
    requires Lifecycle(g, c, pipes) && ReadyExactly(g, c) && FinishedExactly(g, c)
    requires c'.arrived == c.arrived && c'.scheduled == c.scheduled && c'.ready == c.ready && c'.sent == c.sent
    requires c'.completed == c.completed && c'.updates <= c.updates && c'.finished == c.finished
    ensures Lifecycle(g, c', pipes) && ReadyExactly(g, c') && FinishedExactly(g, c')
  {
    forall w | w in pipes ensures Piped(c', w, pipes[w]) {
      assert Piped(c, w, pipes[w]);
    }
  }

  lemma UpdateSafe(g: Graph, s: State, n: NodeId, listings: map<Worker, seq<TensorId>>)
    requires Safe(g, s) && Enabled(g, s, UpdateStep(n, listings))
    ensures Safe(g, s.(c := UpdateFree(g, s.c, n, listings)))
  {
    hide WorkerOk, Tables, Lifecycle, ReadyExactly, FinishedExactly, UpdateFree;
    var c, c' := s.c, UpdateFree(g, s.c, n, listings);
    UpdateTables(g, c, s.ws.Keys, Pipelines(s.ws), n, listings);
    UpdateFields(g, c, n, listings);
    SameLazy(c, c');
    SameTasks(g, c, c', Pipelines(s.ws));
    forall w | w in s.ws ensures WorkerOk(g, c', w, s.ws[w]) {
      UpdateWorker(g, c, n, listings, w, s.ws[w]);
    }
  }

  lemma UpdateFields(g: Graph, c: Coord, n: NodeId, listings: map<Worker, seq<TensorId>>)
    requires n in g
    ensures var c' := UpdateFree(g, c, n, listings);
            c' == c.(refs := c'.refs, updates := c.updates - {n}, freeList := c'.freeList)
  {
  }

  lemma UpdateTables(g: Graph, c: Coord, workers: set<Worker>, pipes: map<Worker, seq<NodeId>>, n: NodeId,
                     listings: map<Worker, seq<TensorId>>)
    requires Tables(g, c, workers) && Lifecycle(g, c, pipes) && n in c.updates && n in g
    ensures Tables(g, UpdateFree(g, c, n, listings), workers)
    ensures References(g, c) && n in Open(g, c) && c.updates <= c.completed
  {
    UpdatesOpen(g, c, pipes, n);
    UpdateReferences(g, c, n, listings);
  }

  lemma UpdateWorker(g: Graph, c: Coord, n: NodeId, listings: map<Worker, seq<TensorId>>, w: Worker, x: WorkerState)
    requires WorkerOk(g, c, w, x) && References(g, c) && n in c.updates && n in Open(g, c) && c.updates <= c.completed
    requires w in listings && Lists(listings[w], ToFree(g, c, n, w))
    ensures WorkerOk(g, UpdateFree(g, c, n, listings), w, x)
  {
    UpdateTells(g, c, n, listings, w, x);
    UpdateHolds(g, c, n, listings, w, x);
    OthersConsistent(g, c, UpdateFree(g, c, n, listings), w, x);
  }

  // ---- reports received

  /** What the head of a worker's reports says holds already, but for its being recorded. */
  lemma HeadFacts(g: Graph, s: State, w: Worker)
    requires WellFormed(g) && Safe(g, s) && w in s.ws && s.ws[w].outbox != [] && s.ws[w].outbox[0].Tensor?
    ensures var n, t := s.ws[w].outbox[0].node, s.ws[w].outbox[0].tensor;
            && n in g && n in s.c.sent && s.c.sent[n].worker == w
            && (t !in s.c.holders ==> t in g[n].outputs) && !Retired(s.c, t) && t in s.ws[w].store
  {
    hide Safe, Tasks, LazyOk, Pipeline;
    SafeParts(g, s, w);
    PipelineHead(s.ws[w], g, s.c, w);
    ReceivedNotRetired(g, s.c, w, s.ws[w]);
    assert s.ws[w].outbox[0] in s.ws[w].outbox;
  }

  lemma PipelineHead(x: WorkerState, g: Graph, c: Coord, w: Worker)
    requires Consistent(g, c, w, x) && x.outbox != [] && x.outbox[0].Tensor?
    ensures x.outbox[0].node in Pipeline(x)
  {
  }

  lemma TensorSafe(g: Graph, s: State, w: Worker)
    requires WellFormed(g) && Safe(g, s) && Enabled(g, s, TensorStep(w))
    ensures Safe(g, Apply(g, s, TensorStep(w)))
  {
    hide WorkerOk, LazyOk, ReadyExactly, FinishedExactly, Lifecycle, Tables, ReceiveTensor, Retired;
    var c, x, t := s.c, s.ws[w], s.ws[w].outbox[0].tensor;
    var c', x' := ReceiveTensor(c, w, t), x.(outbox := x.outbox[1..]);
    var ws' := s.ws[w := x'];
    HeadFacts(g, s, w);
    ReceiveLazy(c, w, t);
    PopFromPipeline(x);
    assert ws'.Keys == s.ws.Keys;
    assert Pipeline(x') == Pipeline(x);
    assert Pipelines(ws') == Pipelines(s.ws);
    TensorFields(c, w, t);
    TensorTasks(g, c, c', Pipelines(s.ws));
    TensorTables(g, c, w, s.ws.Keys, x.outbox[0].node, t);
    forall v | v in ws' ensures WorkerOk(g, c', v, ws'[v]) {
      if v == w {
        TensorHere(g, s, w);
      } else {
        TensorElsewhere(g, s, w, v);
      }
    }
  }

  lemma TensorFields(c: Coord, w: Worker, t: TensorId)
    ensures var c' := ReceiveTensor(c, w, t); c' == c.(holders := c'.holders, notifies := c'.notifies)
  {
  }

  lemma TensorTasks(g: Graph, c: Coord, c': Coord, pipes: map<Worker, seq<NodeId>>)
    requires Lifecycle(g, c, pipes) && ReadyExactly(g, c) && FinishedExactly(g, c)
    requires c' == c.(holders := c'.holders, notifies := c'.notifies)
    ensures Lifecycle(g, c', pipes) && ReadyExactly(g, c') && FinishedExactly(g, c')
  {
    SameTasks(g, c, c', pipes);
  }

  lemma TensorTables(g: Graph, c: Coord, w: Worker, workers: set<Worker>, n: NodeId, t: TensorId)
    requires WellFormed(g) && Tables(g, c, workers) && w in workers
    requires n in g && n in c.sent && (t !in c.holders ==> t in g[n].outputs)
    ensures Tables(g, ReceiveTensor(c, w, t), workers)
  {
    var c' := ReceiveTensor(c, w, t);
    assert Open(g, c') == Open(g, c) && ArrivedNodes(g, c') == ArrivedNodes(g, c);
    forall p | p in g && p !in c.sent ensures g[p].outputs !! c'.holders.Keys {
      assert g[p].outputs !! g[n].outputs;
    }
    forall m | m in c.sent ensures JobOk(g, c'.holders, c.sent[m]) {
      assert JobOk(g, c.holders, c.sent[m]);
    }
  }

  lemma TensorHere(g: Graph, s: State, w: Worker)
    requires WellFormed(g) && Safe(g, s) && w in s.ws && s.ws[w].outbox != [] && s.ws[w].outbox[0].Tensor?
    ensures WorkerOk(g, ReceiveTensor(s.c, w, s.ws[w].outbox[0].tensor), w, s.ws[w].(outbox := s.ws[w].outbox[1..]))
  {
    hide Safe, Consistent, Tables, Tasks, LazyOk;
    var c, x, t := s.c, s.ws[w], s.ws[w].outbox[0].tensor;
    var c', x' := ReceiveTensor(c, w, t), x.(outbox := x.outbox[1..]);
    HeadFacts(g, s, w);
    SafeParts(g, s, w);
    ReceiveConsistent(g, c, c', w, x);
    ReceiveTells(c, w, t, w, x);
    assert ToldTo(c', w, x') == ToldTo(c', w, x);
    forall r | r in x'.outbox ensures r in x.outbox {}
  }

  lemma TensorElsewhere(g: Graph, s: State, w: Worker, v: Worker)
    requires WellFormed(g) && Safe(g, s) && w in s.ws && s.ws[w].outbox != [] && s.ws[w].outbox[0].Tensor?
    requires v in s.ws && v != w
    ensures WorkerOk(g, ReceiveTensor(s.c, w, s.ws[w].outbox[0].tensor), v, s.ws[v])
  {
    hide Safe, Consistent, Tables, Tasks, LazyOk, Pipeline;
    var c, x, n, t := s.c, s.ws[v], s.ws[w].outbox[0].node, s.ws[w].outbox[0].tensor;
    HeadFacts(g, s, w);
    SafeParts(g, s, v);
    forall p | t !in c.holders && p in Pipeline(x) && p in g ensures t !in g[p].outputs {
      assert p != n;
    }
    RecordedElsewhere(g, c, ReceiveTensor(c, w, t), v, x, t);
    ReceiveTells(c, w, t, v, x);
  }

  lemma DoneSafe(g: Graph, s: State, w: Worker, batch: seq<NodeId>)
    requires WellFormed(g) && Safe(g, s) && Enabled(g, s, DoneStep(w, batch))
    ensures Safe(g, Apply(g, s, DoneStep(w, batch)))
  {
    hide WorkerOk, LazyOk, Tables, Lifecycle, ReadyExactly, FinishedExactly;
    var c, x, n := s.c, s.ws[w], s.ws[w].outbox[0].node;
    var c', x' := ReceiveDone(g, c, n, batch), x.(outbox := x.outbox[1..]);
    var ws' := s.ws[w := x'];
    assert ws'.Keys == s.ws.Keys;
    DoneTasks(g, s, w, batch);
    DoneTables(g, s, w, batch);
    SameLazy(c, c');
    forall v | v in ws' ensures WorkerOk(g, c', v, ws'[v]) {
      DoneWorker(g, s, w, batch, v);
    }
  }

  lemma DoneTasks(g: Graph, s: State, w: Worker, batch: seq<NodeId>)
    requires Safe(g, s) && Enabled(g, s, DoneStep(w, batch))
    ensures s.ws[w].outbox[0].node in g && s.ws[w].outbox[0].node !in s.c.completed
    ensures Tasks(g, Apply(g, s, DoneStep(w, batch)))
  {
    hide Tables, WorkerOk, LazyOk, Pipeline, Lifecycle, ReadyExactly, FinishedExactly;
    var c, x, pipes := s.c, s.ws[w], Pipelines(s.ws);
    var n, ws' := x.outbox[0].node, s.ws[w := x.(outbox := x.outbox[1..])];
    PopFromPipeline(x);
    assert pipes[w] == [n] + Pipeline(ws'[w]);
    assert Pipelines(ws') == pipes[w := pipes[w][1..]];
    DoneLifecycle(g, c, pipes, w, batch);
    var c1 := Enqueue(Complete(c, n), batch);
    FinishedAfter(g, c, c1, n);
    FinishedOnly(g, c1, pipes[w := pipes[w][1..]], n.request);
  }

  /** Declaring a request finished changes nothing else. */
  lemma FinishedOnly(g: Graph, c: Coord, pipes: map<Worker, seq<NodeId>>, request: nat)
    requires Lifecycle(g, c, pipes) && ReadyExactly(g, c)
    ensures Lifecycle(g, CheckFinished(g, c, request), pipes) && ReadyExactly(g, CheckFinished(g, c, request))
  {
    var c' := CheckFinished(g, c, request);
    forall w | w in pipes ensures Piped(c', w, pipes[w]) {
      assert Piped(c, w, pipes[w]);
    }
  }

  lemma DoneTables(g: Graph, s: State, w: Worker, batch: seq<NodeId>)
    requires Safe(g, s) && Enabled(g, s, DoneStep(w, batch))
    ensures Tables(g, ReceiveDone(g, s.c, s.ws[w].outbox[0].node, batch), s.ws.Keys)
  {
    hide Tasks, Tables, LazyOk, WorkerOk, Pipeline;
    DoneTasks(g, s, w, batch);
    SafeParts(g, s, w);
    DoneRecorded(g, s.c, w, s.ws[w]);
    UpdatesCompleted(g, s);
    CompleteTables(g, s.c, ReceiveDone(g, s.c, s.ws[w].outbox[0].node, batch), s.ws.Keys, s.ws[w].outbox[0].node);
  }

  lemma UpdatesCompleted(g: Graph, s: State)
    requires Tasks(g, s)
    ensures s.c.updates <= s.c.completed
  {
  }

  lemma DoneRecorded(g: Graph, c: Coord, w: Worker, x: WorkerState)
    requires WorkerOk(g, c, w, x) && x.outbox != [] && x.outbox[0].Done?
    ensures var n := x.outbox[0].node; n in g && ReadSet(g[n]) + g[n].outputs <= c.holders.Keys
  {
  }

  lemma CompleteTables(g: Graph, c: Coord, c': Coord, workers: set<Worker>, n: NodeId)
    requires Tables(g, c, workers) && n in g && n !in c.completed && c.updates <= c.completed
    requires ReadSet(g[n]) + g[n].outputs <= c.holders.Keys
    requires c'.arrived == c.arrived && c'.refs == c.refs && c'.completed == c.completed + {n}
               && c'.updates == c.updates + {n}
    requires c'.holders == c.holders && c'.sent == c.sent
    ensures Tables(g, c', workers)
  {
    CompleteReferences(g, c, c', n);
  }

  lemma DoneWorker(g: Graph, s: State, w: Worker, batch: seq<NodeId>, v: Worker)
    requires Safe(g, s) && Enabled(g, s, DoneStep(w, batch)) && v in s.ws
    ensures var s' := Apply(g, s, DoneStep(w, batch)); WorkerOk(g, s'.c, v, s'.ws[v])
  {
    hide Tasks, Tables, LazyOk;
    var c, x, n := s.c, s.ws[v], s.ws[w].outbox[0].node;
    var c' := ReceiveDone(g, c, n, batch);
    assert WorkerOk(g, c, v, x);
    SameWorker(g, c, c', v, x);
    if v == w {
      ReceiveConsistent(g, c, c', w, x);
      PopTold(c', w, x);
    }
  }

  lemma PopTold(c: Coord, w: Worker, x: WorkerState)
    requires x.outbox != [] && ToldExactly(c, w, x) && Holds(c, w, x) && HoldsReported(c, x)
    ensures var x' := x.(outbox := x.outbox[1..]); ToldExactly(c, w, x') && Holds(c, w, x') && HoldsReported(c, x')
  {
    var x' := x.(outbox := x.outbox[1..]);
    assert ToldTo(c, w, x') == ToldTo(c, w, x);
    forall r | r in x'.outbox ensures r in x.outbox {}
  }

  // ---- tasks sent

  lemma DispatchSafe(g: Graph, s: State, w: Worker, group: seq<NodeId>)
    requires WellFormed(g) && Separate(g) && Safe(g, s) && Enabled(g, s, DispatchStep(w, group))
               && AllComposable(g, s.c, group)
    ensures Safe(g, Apply(g, s, DispatchStep(w, group)))
  {
    hide WorkerOk, LazyOk, Tables, Lifecycle, ReadyExactly, FinishedExactly;
    var s' := Apply(g, s, DispatchStep(w, group));
    assert s'.ws.Keys == s.ws.Keys;
    GroupFacts(g, s, group);
    DispatchTasks(g, s, w, group);
    DispatchTables(g, s.c, s.ws.Keys, w, group);
    DispatchLazy(g, s.c, w, group);
    forall v | v in s'.ws ensures WorkerOk(g, s'.c, v, s'.ws[v]) {
      if v == w {
        DispatchHere(g, s, w, group);
      } else {
        DispatchElsewhere(g, s, w, group, v);
      }
    }
  }

  lemma GroupFacts(g: Graph, s: State, group: seq<NodeId>)
    requires Tasks(g, s) && forall n | n in group :: n in s.c.ready
    ensures forall n | n in group :: n in g && n !in s.c.sent && NonLazyPrerequisites(g, n) <= s.c.completed
  {
  }

  lemma DispatchTasks(g: Graph, s: State, w: Worker, group: seq<NodeId>)
    requires Tasks(g, s) && Enabled(g, s, DispatchStep(w, group)) && AllComposable(g, s.c, group)
    ensures Tasks(g, Apply(g, s, DispatchStep(w, group)))
  {
    hide Lifecycle, ReadyExactly, FinishedExactly, Pipeline;
    var s', x := Apply(g, s, DispatchStep(w, group)), s.ws[w];
    AcceptExtendsPipeline(g, s.c, x, w, FreeListOf(s.c, w), group);
    assert Pipelines(s'.ws) == Pipelines(s.ws)[w := Pipelines(s.ws)[w] + group];
    DispatchLifecycle(g, s.c, Pipelines(s.ws), w, group);
    DispatchReady(g, s.c, w, group);
  }

  lemma DispatchReady(g: Graph, c: Coord, w: Worker, group: seq<NodeId>)
    requires ReadyExactly(g, c) && FinishedExactly(g, c) && forall n | n in group :: n in g
    ensures ReadyExactly(g, Dispatch(g, c, w, group)) && FinishedExactly(g, Dispatch(g, c, w, group))
  {
  }

  lemma DispatchTables(g: Graph, c: Coord, workers: set<Worker>, w: Worker, group: seq<NodeId>)
    requires WellFormed(g) && Separate(g) && Tables(g, c, workers) && w in workers
    requires forall n | n in group :: n in g && n !in c.sent && NonLazyPrerequisites(g, n) <= c.completed
    ensures Tables(g, Dispatch(g, c, w, group), workers)
  {
    var c' := Dispatch(g, c, w, group);
    assert Open(g, c') == Open(g, c) && ArrivedNodes(g, c') == ArrivedNodes(g, c);
    forall n | n in c'.sent
      ensures c'.sent[n].node == n && c'.sent[n].worker in workers && JobOk(g, c'.holders, c'.sent[n])
    {
      if n in group { DispatchedJobOk(g, c, workers, w, n); }
    }
  }

  lemma TablesUnborn(g: Graph, c: Coord, workers: set<Worker>)
    requires Tables(g, c, workers)
    ensures Unborn(g, c)
  {
  }

  lemma DispatchHere(g: Graph, s: State, w: Worker, group: seq<NodeId>)
    requires WellFormed(g) && Safe(g, s) && Enabled(g, s, DispatchStep(w, group)) && AllComposable(g, s.c, group)
    requires forall n | n in group :: n in g && n !in s.c.sent
    ensures var s' := Apply(g, s, DispatchStep(w, group)); WorkerOk(g, s'.c, w, s'.ws[w])
  {
    hide Safe, Tasks, Tables, LazyOk, Pipeline, Consistent, ToldTo, Unborn;
    var c, x, m := s.c, s.ws[w], Message(FreeListOf(s.c, w), JobsFor(g, s.c, w, group));
    var c', x' := Dispatch(g, c, w, group), x.(inbox := x.inbox + [m]);
    SafeParts(g, s, w);
    TablesUnborn(g, c, s.ws.Keys);
    UnbornInOutbox(g, c, w, x, group);
    assert JobNodes(m.jobs) == group;
    AcceptConsistent(g, c, c', w, x, m);
    DispatchFrees(g, c, w, x, group);
  }

  lemma DispatchElsewhere(g: Graph, s: State, w: Worker, group: seq<NodeId>, v: Worker)
    requires Safe(g, s) && Enabled(g, s, DispatchStep(w, group)) && v in s.ws && v != w
    requires forall n | n in group :: n in g && n !in s.c.sent
    ensures WorkerOk(g, Dispatch(g, s.c, w, group), v, s.ws[v])
  {
    hide Tasks, Tables, LazyOk, Consistent;
    var c, c' := s.c, Dispatch(g, s.c, w, group);
    assert WorkerOk(g, c, v, s.ws[v]);
    OthersConsistent(g, c, c', v, s.ws[v]);
    SameTold(c, c', v, s.ws[v]);
  }

  /** A ready task with a non-lazy input can be composed: what it reads has been recorded. */
  lemma ReadyComposable(g: Graph, s: State, n: NodeId)
    requires WellFormed(g) && Separate(g) && Safe(g, s) && n in g && n in s.c.ready
    requires LazySet(g[n]) == {} || EagerSet(g[n]) != {}
    ensures Composable(g, s.c, n)
  {
    if LazySet(g[n]) != {} {
      var t :| t in EagerSet(g[n]);
      EagerProducerAwaited(g, n, t);
      var m :| m in NonLazyPrerequisites(g, n) && t in g[m].outputs;
      assert t in s.c.holders;
    }
  }

  // ---------------------------------------------------------------- runs

  lemma StepSafe(g: Graph, s: State, step: Step)
    requires WellFormed(g) && Separate(g) && Composes(g) && Safe(g, s) && Enabled(g, s, step)
    ensures Safe(g, Apply(g, s, step))
  {
    hide Safe;
    match step
    case SubmitStep(request, batch) => SubmitSafe(g, s, request, batch);
    case DispatchStep(w, group) =>
      forall n | n in group ensures Composable(g, s.c, n) { ReadyComposable(g, s, n); }
      DispatchSafe(g, s, w, group);
    case TensorStep(w) => TensorSafe(g, s, w);
    case DoneStep(w, batch) => DoneSafe(g, s, w, batch);
    case NotifyStep(t, source, listing) => NotifySafe(g, s, t, source, listing);
    case UpdateStep(n, listings) => UpdateSafe(g, s, n, listings);
    case StartStep(w) => StartSafe(g, s, w);
    case EmitStep(w, n, t) => EmitSafe(g, s, w, n, t);
    case AcquireStep(w, job, t) => AcquireSafe(g, s, w, t);
    case FinishStep(w, reports) => FinishSafe(g, s, w, reports);
  }

  /** The invariant holds in every state any run reaches. */
  lemma {:induction false} RunSafe(g: Graph, s: State, steps: seq<Step>, s': State)
    requires WellFormed(g) && Separate(g) && Composes(g) && Safe(g, s) && Run(g, s, steps, s')
    ensures Safe(g, s')
    decreases |steps|
  {
    hide Safe;
    if steps != [] {
      StepSafe(g, s, steps[0]);
      RunSafe(g, Apply(g, s, steps[0]), steps[1..], s');
    }
  }
}
