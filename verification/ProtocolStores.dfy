/** No tensor is forgotten in a worker: every stored copy is recorded or about to be, and freed ones do not return. */
module ProtocolStores {
  import opened Wrappers
  import opened TaskGraphs
  import opened Protocol
  import opened ProtocolLifecycle
  import opened ProtocolReports
  import opened ProtocolFrees
  import opened ProtocolLazy
  import opened ProtocolSafety

  /** A copy the job made or makes, to be reported when it finishes. */
  predicate Copies(j: Job, t: TensorId) {
    t in j.waiting || (t in j.locations && j.worker !in j.locations[t])
  }

  predicate CopiedBy(jobs: seq<Job>, t: TensorId) {
    exists j :: j in jobs && Copies(j, t)
  }

  /** The coordinator knows of every stored tensor, or will hear of it. */
  ghost predicate Accounted(c: Coord, w: Worker, x: WorkerState) {
    && x.emitted <= x.store
    && forall t | t in x.store :: w in HoldersOf(c, t) || t in Reported(x.outbox) || CopiedBy(x.running, t)
  }

  ghost predicate Clean(x: WorkerState) {
    forall t | t in x.freed :: t !in x.store
  }

  ghost predicate StoresOk(g: Graph, s: State) {
    Safe(g, s) && forall w | w in s.ws :: Accounted(s.c, w, s.ws[w]) && Clean(s.ws[w])
  }

  /** What a worker was told to free is retired. */
  lemma FreedRetired(c: Coord, w: Worker, x: WorkerState)
    requires ToldExactly(c, w, x)
    ensures forall t | t in x.freed :: Retired(c, t)
    ensures x.inbox != [] ==> forall t | t in x.inbox[0].frees :: Retired(c, t)
  {
    forall t | t in x.freed ensures Retired(c, t) {
      assert t in ToldTo(c, w, x);
    }
    if x.inbox != [] {
      assert InboxFrees(x.inbox) == x.inbox[0].frees + InboxFrees(x.inbox[1..]);
      forall t | t in x.inbox[0].frees ensures Retired(c, t) {
        assert t in ToldTo(c, w, x);
      }
    }
  }

  lemma SafeFreed(g: Graph, s: State, w: Worker)
    requires Safe(g, s) && w in s.ws
    ensures forall t | t in s.ws[w].freed :: Retired(s.c, t)
    ensures s.ws[w].inbox != [] ==> forall t | t in s.ws[w].inbox[0].frees :: Retired(s.c, t)
  {
    hide Tasks, Tables, LazyOk, Consistent, Holds, HoldsReported;
    SafeParts(g, s, w);
    FreedRetired(s.c, w, s.ws[w]);
  }

  /** What a job reads is not retired before its reads are accounted for. */
  lemma JobTensors(g: Graph, s: State, w: Worker, j: Job)
    requires Safe(g, s) && w in s.ws
    requires j in s.ws[w].running || (s.ws[w].inbox != [] && j in s.ws[w].inbox[0].jobs)
    ensures j.node in s.c.sent && s.c.sent[j.node] == j && j.worker == w && JobOk(g, s.c.holders, j)
    ensures forall t | t in j.locations || t in j.waiting :: !Retired(s.c, t)
  {
    hide Lifecycle, ReadyExactly, FinishedExactly, LazyOk;
    SafeParts(g, s, w);
    var x := s.ws[w];
    JobInPipeline(s.c, w, x, j);
    assert JobOk(g, s.c.holders, s.c.sent[j.node]);
    forall t | t in j.locations || t in j.waiting ensures !Retired(s.c, t) {
      LazyIsRead(g[j.node], t);
      OpenNotRetired(g, s.c, j.node, t);
    }
  }

  lemma LazyIsRead(n: Node, t: TensorId)
    ensures t in LazySet(n) ==> t in ReadSet(n)
  {
  }

  lemma JobInPipeline(c: Coord, w: Worker, x: WorkerState, j: Job)
    requires JobsMatch(c.sent, w, x.running) && MessagesMatch(c.sent, w, x.inbox)
    requires j in x.running || (x.inbox != [] && j in x.inbox[0].jobs)
    ensures j.node in Pipeline(x) && j.node in c.sent && c.sent[j.node] == j && j.worker == w
  {
    JobNodesMembers(x.running);
    if x.inbox != [] {
      JobNodesMembers(x.inbox[0].jobs);
      assert x.inbox[0] in x.inbox;
    }
  }

  lemma StartStores(g: Graph, s: State, w: Worker)
    requires StoresOk(g, s) && w in s.ws && s.ws[w].running == [] && s.ws[w].inbox != []
    ensures Accounted(s.c, w, Start(s.ws[w])) && Clean(Start(s.ws[w]))
  {
    hide Safe, Retired, JobOk, Copies;
    var c, x := s.c, s.ws[w];
    var x' := Start(x);
    SafeFreed(g, s, w);
    forall j, t | j in x.inbox[0].jobs && t in j.locations
      ensures !Retired(c, t) && (w in HoldersOf(c, t) || CopiedBy(x'.running, t))
    {
      JobTensors(g, s, w, j);
      LocatedOrCopied(g, c, w, x.inbox[0].jobs, j, t);
    }
    forall t | t in x'.store ensures w in HoldersOf(c, t) || t in Reported(x'.outbox) || CopiedBy(x'.running, t) {
      assert t in x.store ==> !CopiedBy(x.running, t);
    }
  }

  lemma LocatedOrCopied(g: Graph, c: Coord, w: Worker, jobs: seq<Job>, j: Job, t: TensorId)
    requires JobOk(g, c.holders, j) && j in jobs && j.worker == w && t in j.locations
    ensures w in HoldersOf(c, t) || CopiedBy(jobs, t)
  {
    if w !in j.locations[t] { assert Copies(j, t); }
  }

  lemma EmitStores(g: Graph, s: State, w: Worker, n: NodeId, t: TensorId)
    requires StoresOk(g, s) && w in s.ws && n in g && t in g[n].outputs && t !in s.ws[w].emitted
    requires exists j :: j in s.ws[w].running && j.node == n
    ensures Accounted(s.c, w, Emit(s.ws[w], n, t)) && Clean(Emit(s.ws[w], n, t))
  {
    hide Safe;
    SafeParts(g, s, w);
    var c, x := s.c, s.ws[w];
    ReportedAppend(x.outbox, [Tensor(n, t)]);
    assert [Tensor(n, t)][0] in [Tensor(n, t)];
    FreedRetired(c, w, x);
    JobNodesMembers(x.running);
    NotYetBorn(g, c, w, x, n, t);
  }

  /** An output not yet emitted is not retired. */
  lemma NotYetBorn(g: Graph, c: Coord, w: Worker, x: WorkerState, n: NodeId, t: TensorId)
    requires Consistent(g, c, w, x) && References(g, c) && RecordedAfter(g, c)
    requires n in JobNodes(x.running) && n in g && t in g[n].outputs && t !in x.emitted
    ensures !Retired(c, t)
  {
    assert t !in g[n].outputs * x.emitted;
    if Retired(c, t) { RetiredRecorded(g, c, t); }
  }

  lemma AcquireStores(g: Graph, s: State, w: Worker, j: Job, t: TensorId)
    requires StoresOk(g, s) && w in s.ws && j in s.ws[w].running && t in j.waiting
    ensures var x' := s.ws[w].(store := s.ws[w].store + {t}); Accounted(s.c, w, x') && Clean(x')
  {
    hide Safe, Retired, JobOk;
    SafeFreed(g, s, w);
    JobTensors(g, s, w, j);
    assert Copies(j, t);
  }

  lemma FinishStores(g: Graph, s: State, w: Worker, x: WorkerState, reports: seq<TensorId>)
    requires w in s.ws && x == s.ws[w] && x.running != [] && x.running[0].node in g
    requires Enabled(g, s, FinishStep(w, reports)) && StoresOk(g, s)
    ensures Accounted(s.c, w, Finish(g, x, reports)) && Clean(Finish(g, x, reports))
  {
    hide Safe, Retired, JobOk, Owed, Copies, Finish;
    var c, j := s.c, x.running[0];
    var x' := Finish(g, x, reports);
    SafeFreed(g, s, w);
    JobTensors(g, s, w, j);
    FinishFields(g, x, reports);
    forall t | t in g[j.node].outputs && t !in x.emitted ensures !Retired(c, t) && t in Reported(x'.outbox) {
      FinishedOutput(g, s, w, x, reports, t);
    }
    FinishCopies(g, c, w, x, reports);
  }

  lemma FinishFields(g: Graph, x: WorkerState, reports: seq<TensorId>)
    requires x.running != [] && x.running[0].node in g
    ensures var x' := Finish(g, x, reports);
            && x'.running == x.running[1..] && x'.store == x.store + g[x.running[0].node].outputs
            && x'.emitted == x.emitted && x'.freed == x.freed
            && Reported(x'.outbox) == Reported(x.outbox) + set t | t in reports
  {
    var n := x.running[0].node;
    var new_ := TensorReports(n, reports) + [Done(n)];
    ReportsAttributed(n, reports, {});
    ReportedAppend(x.outbox, new_);
    assert Finish(g, x, reports).outbox == x.outbox + new_;
  }

  /** An output not announced before is announced now, and nobody has read it yet. */
  lemma FinishedOutput(g: Graph, s: State, w: Worker, x: WorkerState, reports: seq<TensorId>, t: TensorId)
    requires w in s.ws && x == s.ws[w] && x.running != [] && x.running[0].node in g
    requires t in g[x.running[0].node].outputs && t !in x.emitted
    requires Enabled(g, s, FinishStep(w, reports)) && Safe(g, s)
    ensures !Retired(s.c, t) && t in reports
  {
    hide Tasks, LazyOk, Unborn, SentOk, HoldersOk, RecordedAfter, References, Births, Deliverable, Attributed,
         ToldExactly;
    assert WorkerOk(g, s.c, w, x);
    assert JobNodes(x.running)[0] == x.running[0].node;
    NotYetBorn(g, s.c, w, x, x.running[0].node, t);
    assert t in Owed(g, x, x.running[0]);
  }

  /** Copies of the finished job are reported now; those of the others still will be. */
  lemma FinishCopies(g: Graph, c: Coord, w: Worker, x: WorkerState, reports: seq<TensorId>)
    requires x.running != [] && x.running[0].node in g && x.running[0].worker == w
               && Lists(reports, Owed(g, x, x.running[0]))
    ensures forall t | CopiedBy(x.running, t) :: t in reports || CopiedBy(x.running[1..], t)
  {
    assert x.running == [x.running[0]] + x.running[1..];
    forall t | CopiedBy(x.running, t) ensures t in reports || CopiedBy(x.running[1..], t) {
      var j :| j in x.running && Copies(j, t);
      if j == x.running[0] { assert t in Owed(g, x, j); }
    }
  }

  lemma {:induction false} RecordedKeeps(c: Coord, c': Coord, w: Worker, x: WorkerState, x': WorkerState)
    requires Accounted(c, w, x) && x' == x.(outbox := x'.outbox, inbox := x'.inbox)
    requires forall t | w in HoldersOf(c, t) :: w in HoldersOf(c', t)
    requires forall t | t in Reported(x.outbox) :: w in HoldersOf(c', t) || t in Reported(x'.outbox)
    ensures Accounted(c', w, x')
  {
  }

  lemma ReceiveStores(s: State, w: Worker, c': Coord)
    requires w in s.ws && s.ws[w].outbox != [] && Accounted(s.c, w, s.ws[w])
    requires c'.holders == if s.ws[w].outbox[0].Tensor? then ReceiveTensor(s.c, w, s.ws[w].outbox[0].tensor).holders
               else s.c.holders
    ensures Accounted(c', w, s.ws[w].(outbox := s.ws[w].outbox[1..]))
  {
    ReportedSplit(s.ws[w].outbox);
    RecordedKeeps(s.c, c', w, s.ws[w], s.ws[w].(outbox := s.ws[w].outbox[1..]));
  }

  /** The recorded holders only grow. */
  lemma HoldersGrow(g: Graph, s: State, step: Step, w: Worker, t: TensorId)
    requires Enabled(g, s, step) && w in HoldersOf(s.c, t)
    ensures w in HoldersOf(Apply(g, s, step).c, t)
  {
  }

  lemma StepStores(g: Graph, s: State, step: Step)
    requires WellFormed(g) && Separate(g) && Composes(g) && StoresOk(g, s) && Enabled(g, s, step)
    ensures StoresOk(g, Apply(g, s, step))
  {
    hide Safe, Accounted, Clean;
    StepSafe(g, s, step);
    var s' := Apply(g, s, step);
    forall w | w in s'.ws ensures Accounted(s'.c, w, s'.ws[w]) && Clean(s'.ws[w]) {
      StepStore(g, s, step, w);
    }
  }

  lemma StepStore(g: Graph, s: State, step: Step, w: Worker)
    requires StoresOk(g, s) && Enabled(g, s, step) && w in s.ws
    ensures Apply(g, s, step).ws.Keys == s.ws.Keys
    ensures Accounted(Apply(g, s, step).c, w, Apply(g, s, step).ws[w]) && Clean(Apply(g, s, step).ws[w])
  {
    hide Safe, Start, Finish, Emit, Accounted, Clean;
    if step.StartStep? && step.w == w {
      StartStores(g, s, w);
    } else if step.EmitStep? && step.w == w {
      EmitStores(g, s, w, step.node, step.tensor);
    } else if step.AcquireStep? && step.w == w {
      AcquireStores(g, s, w, step.job, step.tensor);
    } else if step.FinishStep? && step.w == w {
      FinishStores(g, s, w, s.ws[w], step.reports);
    } else {
      PassiveStore(g, s, step, w);
    }
  }

  /** A step in which the worker itself does nothing. */
  lemma PassiveStore(g: Graph, s: State, step: Step, w: Worker)
    requires Enabled(g, s, step) && w in s.ws && Accounted(s.c, w, s.ws[w]) && Clean(s.ws[w])
    requires !((step.StartStep? || step.EmitStep? || step.AcquireStep? || step.FinishStep?) && step.w == w)
    ensures w in Apply(g, s, step).ws
    ensures Accounted(Apply(g, s, step).c, w, Apply(g, s, step).ws[w]) && Clean(Apply(g, s, step).ws[w])
  {
    hide Accounted, Start, Finish, Emit;
    if (step.TensorStep? || step.DoneStep?) && step.w == w {
      ReceiveStores(s, w, Apply(g, s, step).c);
    } else {
      forall t | w in HoldersOf(s.c, t) ensures w in HoldersOf(Apply(g, s, step).c, t) {
        HoldersGrow(g, s, step, w, t);
      }
      RecordedKeeps(s.c, Apply(g, s, step).c, w, s.ws[w], Apply(g, s, step).ws[w]);
    }
  }

  lemma {:induction false} RunStores(g: Graph, s: State, steps: seq<Step>, s': State)
    requires WellFormed(g) && Separate(g) && Composes(g) && StoresOk(g, s) && Run(g, s, steps, s')
    ensures StoresOk(g, s')
    decreases |steps|
  {
    hide StoresOk;
    if steps != [] {
      StepStores(g, s, steps[0]);
      RunStores(g, Apply(g, s, steps[0]), steps[1..], s');
    }
  }

  lemma InitStores(g: Graph, workers: set<Worker>)
    ensures StoresOk(g, Init(workers))
  {
    InitSafe(g, workers);
  }
}
