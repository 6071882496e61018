/**
 * The coordinator and its workers as a step machine. Code between awaits is one step; tasks are
 * delivered to a worker, and reports to the coordinator, in the order they were sent.
 */
module Protocol {
  import opened Wrappers
  import opened TaskGraphs

  // ---------------------------------------------------------------- messages and state

  /** A dispatched task: where each of its tensors is, and the lazy ones that had not arrived. */
  datatype Job = Job(node: NodeId, worker: Worker, locations: map<TensorId, set<Worker>>, waiting: set<TensorId>)

  datatype Message = Message(frees: seq<TensorId>, jobs: seq<Job>)

  /** A tensor a worker now holds, or the end of a task. */
  datatype Report = Tensor(node: NodeId, tensor: TensorId) | Done(node: NodeId)

  datatype Notice = Notice(node: NodeId, worker: Worker, tensor: TensorId, source: Worker)

  /**
   * The coordinator's tables. `ready` joins the task queue and the list of ready tasks; `updates`
   * and `notifies` are coroutines created but not yet run; `notices` are the lazy arrivals sent.
   */
  datatype Coord = Coord(
    arrived: set<nat>, scheduled: set<NodeId>, ready: seq<NodeId>, sent: map<NodeId, Job>,
    holders: map<TensorId, set<Worker>>, refs: map<TensorId, int>, completed: set<NodeId>, updates: set<NodeId>,
    freeList: map<Worker, seq<TensorId>>, waiters: map<TensorId, set<(NodeId, Worker)>>,
    notifies: multiset<(TensorId, Worker)>, notices: seq<Notice>, finished: set<nat>)

  /** A worker: `emitted` are the tensors already announced by the running group, `freed` all it was told to free. */
  datatype WorkerState = WorkerState(
    inbox: seq<Message>, running: seq<Job>, emitted: set<TensorId>, outbox: seq<Report>, store: set<TensorId>,
    freed: seq<TensorId>)

  datatype State = State(c: Coord, ws: map<Worker, WorkerState>)

  const IDLE := WorkerState([], [], {}, [], {}, [])

  function Init(workers: set<Worker>): State {
    State(Coord({}, {}, [], map[], map[], map[], {}, {}, map[], map[], multiset{}, [], {}), map w | w in workers ::
          IDLE)
  }

  // ---------------------------------------------------------------- helpers

  ghost predicate Distinct<T>(s: seq<T>) {
    forall i, j | 0 <= i < j < |s| :: s[i] != s[j]
  }

  /** `s` lists `all`, each element once. */
  ghost predicate Lists<T(!new)>(s: seq<T>, all: set<T>) {
    Distinct(s) && forall x :: x in s <==> x in all
  }

  function FreeListOf(c: Coord, w: Worker): seq<TensorId> {
    if w in c.freeList then c.freeList[w] else []
  }

  function HoldersOf(c: Coord, t: TensorId): set<Worker> {
    if t in c.holders then c.holders[t] else {}
  }

  function WaitersOf(c: Coord, t: TensorId): set<(NodeId, Worker)> {
    if t in c.waiters then c.waiters[t] else {}
  }

  /** All its readers have been accounted for. */
  predicate Retired(c: Coord, t: TensorId) {
    t in c.refs && c.refs[t] == 0
  }

  // ---------------------------------------------------------------- coordinator steps

  /** Nodes of `candidates` that are not yet queued and wait for nothing more. */
  function NewlyReady(g: Graph, c: Coord, candidates: set<NodeId>): set<NodeId> {
    set n | n in candidates && n in g && n !in c.scheduled && NonLazyPrerequisites(g, n) <= c.completed
  }

  function Enqueue(c: Coord, batch: seq<NodeId>): Coord {
    c.(scheduled := c.scheduled + (set n | n in batch), ready := c.ready + batch)
  }

  function ReadTensors(g: Graph, nodes: set<NodeId>): set<TensorId> {
    set n, t | n in nodes && n in g && t in ReadSet(g[n]) :: t
  }

  ghost function CountReaders(g: Graph, nodes: set<NodeId>): map<TensorId, int>
    requires nodes <= g.Keys
  {
    map t | t in ReadTensors(g, nodes) :: |ReadersOf(g, nodes, t)|
  }

  /** A request arrives: its tables are built and what waits for nothing is queued. */
  ghost function Register(g: Graph, c: Coord, request: nat): Coord {
    c.(arrived := c.arrived + {request}, refs := c.refs + CountReaders(g, NodesOf(g, request)))
  }

  ghost function Submit(g: Graph, c: Coord, request: nat, batch: seq<NodeId>): Coord {
    Enqueue(Register(g, c, request), batch)
  }

  /** The task as it is sent: lazy tensors already located are attached like the others. */
  function JobFor(g: Graph, c: Coord, w: Worker, n: NodeId): Job
    requires n in g
  {
    Job(n, w, map t | t in ReadSet(g[n]) && t in c.holders :: c.holders[t], LazySet(g[n]) - c.holders.Keys)
  }

  function JobsFor(g: Graph, c: Coord, w: Worker, group: seq<NodeId>): seq<Job>
    requires forall n | n in group :: n in g
  {
    seq(|group|, i requires 0 <= i < |group| => JobFor(g, c, w, group[i]))
  }

  function NewWaiters(g: Graph, c: Coord, w: Worker, group: seq<NodeId>, t: TensorId): set<(NodeId, Worker)> {
    set n | n in group && n in g && t in LazySet(g[n]) && t !in c.holders :: (n, w)
  }

  function Awaited(g: Graph, c: Coord, group: seq<NodeId>): set<TensorId> {
    set n, t | n in group && n in g && t in LazySet(g[n]) && t !in c.holders :: t
  }

  function Without(s: seq<NodeId>, group: seq<NodeId>): seq<NodeId> {
    if s == [] then []
    else (if s[0] in group then [] else [s[0]]) + Without(s[1..], group)
  }

  /** A group leaves the ready list for worker `w`; what it waits for lazily is registered, and the frees go along. */
  function Dispatch(g: Graph, c: Coord, w: Worker, group: seq<NodeId>): Coord
    requires forall n | n in group :: n in g
  {
    c.(ready := Without(c.ready, group),
       sent := c.sent + map n | n in group :: JobFor(g, c, w, n),
       freeList := if w in c.freeList then c.freeList[w := []] else c.freeList,
       waiters := map t | t in c.waiters.Keys + Awaited(g, c, group) :: WaitersOf(c, t) + NewWaiters(g, c, w, group, t))
  }

  /**
   * A lazy input can be looked up only once some tensor of its request has been recorded: the table
   * of the request does not exist before.
   */
  predicate Composable(g: Graph, c: Coord, n: NodeId)
    requires n in g
  {
    LazySet(g[n]) == {} || n.request in set t | t in c.holders :: t.request
  }

  predicate AllComposable(g: Graph, c: Coord, group: seq<NodeId>)
    requires forall n | n in group :: n in g
  {
    forall n | n in group :: Composable(g, c, n)
  }

  /** The tasks of a group before the first that cannot be composed. */
  function ComposedPart(g: Graph, c: Coord, group: seq<NodeId>): (part: seq<NodeId>)
    requires forall n | n in group :: n in g
    ensures part <= group
  {
    if group == [] || !Composable(g, c, group[0]) then [] else [group[0]] + ComposedPart(g, c, group[1..])
  }

  /**
   * A failed lookup is logged and nothing is sent: the group has left the ready list, the pending
   * frees are gone, and the tasks before the failing one stay registered.
   */
  function Drop(g: Graph, c: Coord, w: Worker, group: seq<NodeId>): Coord
    requires forall n | n in group :: n in g
  {
    var part := ComposedPart(g, c, group);
    c.(ready := Without(c.ready, group),
       freeList := if w in c.freeList then c.freeList[w := []] else c.freeList,
       waiters := map t | t in c.waiters.Keys + Awaited(g, c, part) :: WaitersOf(c, t) + NewWaiters(g, c, w, part, t))
  }

  /** A worker reports a tensor: it is recorded, and a notification is started. */
  function ReceiveTensor(c: Coord, w: Worker, t: TensorId): Coord {
    c.(holders := c.holders[t := HoldersOf(c, t) + {w}], notifies := c.notifies + multiset{(t, w)})
  }

  function Complete(c: Coord, n: NodeId): Coord {
    c.(completed := c.completed + {n}, updates := c.updates + {n})
  }

  /** The request's event is set when as many nodes have completed as it has tasks. */
  function CheckFinished(g: Graph, c: Coord, request: nat): Coord {
    if |c.completed * NodesOf(g, request)| == |NodesOf(g, request)| then c.(finished := c.finished + {request}) else c
  }

  /** A task completes: successors that wait for nothing more are queued, and an update of counts is started. */
  function ReceiveDone(g: Graph, c: Coord, n: NodeId, batch: seq<NodeId>): Coord {
    CheckFinished(g, Enqueue(Complete(c, n), batch), n.request)
  }

  function NoticesFor(c: Coord, t: TensorId, source: Worker): set<Notice> {
    NoticesTo(WaitersOf(c, t), t, source)
  }

  function NoticesTo(registered: set<(NodeId, Worker)>, t: TensorId, source: Worker): set<Notice> {
    set p | p in registered :: Notice(p.0, p.1, t, source)
  }

  /** A notification runs: every registered task is told once, and the registration is dropped. */
  function Notify(c: Coord, t: TensorId, source: Worker, listing: seq<Notice>): Coord {
    c.(notifies := c.notifies - multiset{(t, source)}, notices := c.notices + listing, waiters := c.waiters - {t})
  }

  ghost function Decrement(g: Graph, refs: map<TensorId, int>, n: NodeId): map<TensorId, int>
    requires n in g
  {
    map t | t in refs :: refs[t] - |ReadersOf(g, {n}, t)|
  }

  /** Tensors whose last reader was `n`. */
  ghost function Unused(g: Graph, c: Coord, n: NodeId): set<TensorId>
    requires n in g
  {
    set t | t in ReadSet(g[n]) && t in c.refs && Decrement(g, c.refs, n)[t] == 0
  }

  ghost function ToFree(g: Graph, c: Coord, n: NodeId, w: Worker): set<TensorId>
    requires n in g
  {
    set t | t in Unused(g, c, n) && w in HoldersOf(c, t)
  }

  /** The counts of what `n` read go down, and holders of what is read no more are told to free it. */
  ghost function UpdateFree(g: Graph, c: Coord, n: NodeId, listings: map<Worker, seq<TensorId>>): Coord
    requires n in g
  {
    c.(refs := Decrement(g, c.refs, n), updates := c.updates - {n},
       freeList := map w | w in c.freeList.Keys + (set v | v in listings && listings[v] != []) ::
                     FreeListOf(c, w) + if w in listings then listings[w] else [])
  }

  // ---------------------------------------------------------------- worker steps

  function Located(jobs: seq<Job>): set<TensorId> {
    set j, t | j in jobs && t in j.locations :: t
  }

  /** Phases 0 and 1: frees what the message says, then has every located input at hand. */
  function Start(x: WorkerState): WorkerState
    requires x.inbox != []
  {
    var m := x.inbox[0];
    x.(inbox := x.inbox[1..], running := m.jobs, emitted := {}, freed := x.freed + m.frees,
       store := x.store - (set t | t in m.frees) + Located(m.jobs))
  }

  function Emit(x: WorkerState, n: NodeId, t: TensorId): WorkerState {
    x.(store := x.store + {t}, emitted := x.emitted + {t}, outbox := x.outbox + [Tensor(n, t)])
  }

  /** What the final report of a job names: outputs not announced before, and copies it made. */
  function Owed(g: Graph, x: WorkerState, j: Job): set<TensorId>
    requires j.node in g
  {
    (g[j.node].outputs - x.emitted) + (set t | t in j.locations && j.worker !in j.locations[t]) + j.waiting
  }

  function TensorReports(n: NodeId, tensors: seq<TensorId>): seq<Report> {
    seq(|tensors|, i requires 0 <= i < |tensors| => Tensor(n, tensors[i]))
  }

  function Finish(g: Graph, x: WorkerState, listing: seq<TensorId>): WorkerState
    requires x.running != [] && x.running[0].node in g
  {
    var j := x.running[0];
    x.(running := x.running[1..], store := x.store + g[j.node].outputs,
       outbox := x.outbox + TensorReports(j.node, listing) + [Done(j.node)])
  }

  // ---------------------------------------------------------------- the step machine

  datatype Step =
    | SubmitStep(request: nat, batch: seq<NodeId>)
    | DispatchStep(w: Worker, group: seq<NodeId>)
    | TensorStep(w: Worker)
    | DoneStep(w: Worker, batch: seq<NodeId>)
    | NotifyStep(tensor: TensorId, source: Worker, listing: seq<Notice>)
    | UpdateStep(node: NodeId, listings: map<Worker, seq<TensorId>>)
    | StartStep(w: Worker)
    | EmitStep(w: Worker, node: NodeId, tensor: TensorId)
    | AcquireStep(w: Worker, job: Job, tensor: TensorId)
    | FinishStep(w: Worker, reports: seq<TensorId>)

  ghost predicate Enabled(g: Graph, s: State, step: Step) {
    match step
    case SubmitStep(request, batch) =>
      request !in s.c.arrived && Lists(batch, NewlyReady(g, s.c, NodesOf(g, request)))
    case DispatchStep(w, group) =>
      && w in s.ws && group != [] && Distinct(group)
      && forall n | n in group :: n in s.c.ready && n in g
    case TensorStep(w) =>
      w in s.ws && s.ws[w].outbox != [] && s.ws[w].outbox[0].Tensor?
    case DoneStep(w, batch) =>
      && w in s.ws && s.ws[w].outbox != [] && s.ws[w].outbox[0].Done?
      && Lists(batch, NewlyReady(g, Complete(s.c, s.ws[w].outbox[0].node), Successors(g, s.ws[w].outbox[0].node)))
    case NotifyStep(t, source, listing) =>
      (t, source) in s.c.notifies && Lists(listing, NoticesFor(s.c, t, source))
    case UpdateStep(n, listings) =>
      && n in s.c.updates && n in g
      && listings.Keys == s.ws.Keys && forall w | w in s.ws :: Lists(listings[w], ToFree(g, s.c, n, w))
    case StartStep(w) =>
      w in s.ws && s.ws[w].running == [] && s.ws[w].inbox != []
    case EmitStep(w, n, t) =>
      && w in s.ws && n in g && t in g[n].outputs && t !in s.ws[w].emitted
      && exists j :: j in s.ws[w].running && j.node == n
    case AcquireStep(w, job, t) =>
      && w in s.ws && job in s.ws[w].running && t in job.waiting
      && exists m :: m in s.c.notices && m.worker == w && m.tensor == t
    case FinishStep(w, reports) =>
      && w in s.ws && s.ws[w].running != [] && s.ws[w].running[0].node in g
      && s.ws[w].running[0].waiting <= s.ws[w].store
      && Lists(reports, Owed(g, s.ws[w], s.ws[w].running[0]))
  }

  ghost function Apply(g: Graph, s: State, step: Step): State
    requires Enabled(g, s, step)
  {
    match step
    case SubmitStep(request, batch) => s.(c := Submit(g, s.c, request, batch))
    case DispatchStep(w, group) =>
      if AllComposable(g, s.c, group) then
        var x := s.ws[w];
        State(Dispatch(g, s.c, w, group),
              s.ws[w := x.(inbox := x.inbox + [Message(FreeListOf(s.c, w), JobsFor(g, s.c, w, group))])])
      else s.(c := Drop(g, s.c, w, group))
    case TensorStep(w) =>
      var x := s.ws[w];
      State(ReceiveTensor(s.c, w, x.outbox[0].tensor), s.ws[w := x.(outbox := x.outbox[1..])])
    case DoneStep(w, batch) =>
      var x := s.ws[w];
      State(ReceiveDone(g, s.c, x.outbox[0].node, batch), s.ws[w := x.(outbox := x.outbox[1..])])
    case NotifyStep(t, source, listing) => s.(c := Notify(s.c, t, source, listing))
    case UpdateStep(n, listings) => s.(c := UpdateFree(g, s.c, n, listings))
    case StartStep(w) => s.(ws := s.ws[w := Start(s.ws[w])])
    case EmitStep(w, n, t) => s.(ws := s.ws[w := Emit(s.ws[w], n, t)])
    case AcquireStep(w, job, t) => s.(ws := s.ws[w := s.ws[w].(store := s.ws[w].store + {t})])
    case FinishStep(w, reports) => s.(ws := s.ws[w := Finish(g, s.ws[w], reports)])
  }

  /** `s'` is reached from `s` by `steps`, each enabled when it is taken. */
  ghost predicate Run(g: Graph, s: State, steps: seq<Step>, s': State)
    decreases |steps|
  {
    if steps == [] then s == s'
    else Enabled(g, s, steps[0]) && Run(g, Apply(g, s, steps[0]), steps[1..], s')
  }
}
