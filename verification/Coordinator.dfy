/** The coordinator as an object: its methods do to its tables what the protocol's coordinator steps say. */
module Coordinator {
  import opened Wrappers
  import opened TaskGraphs
  import opened Protocol
  import P = Protocol
  import Dependencies
  import Kahn
  import Frees = ProtocolFrees

  ghost predicate TablesOk(g: Graph, arrived: set<nat>, nonLazy: map<NodeId, set<NodeId>>,
                           successors: map<NodeId, set<NodeId>>)
  {
    && (forall n | n in g && n.request in arrived :: n in nonLazy && nonLazy[n] == NonLazyPrerequisites(g, n))
    && (forall n | n in g && n.request in arrived :: n in successors && successors[n] == Successors(g, n))
  }

  class Coordinator {
    const g: Graph
    var arrived: set<nat>
    var scheduled: set<NodeId>
    var ready: seq<NodeId>
    var sent: map<NodeId, Job>
    var holders: map<TensorId, set<Worker>>
    var refs: map<TensorId, int>
    var completed: set<NodeId>
    var updates: set<NodeId>
    var freeList: map<Worker, seq<TensorId>>
    var waiters: map<TensorId, set<(NodeId, Worker)>>
    var notifies: multiset<(TensorId, Worker)>
    var notices: seq<Notice>
    var finished: set<nat>
    /** Built once a request arrives: non-lazy prerequisites and successors of its nodes. */
    var nonLazy: map<NodeId, set<NodeId>>
    var successors: map<NodeId, set<NodeId>>

    constructor (g: Graph)
      ensures this.g == g && C() == Init({}).c && Valid()
    {
      this.g := g;
      arrived, scheduled, ready, sent, holders, refs := {}, {}, [], map[], map[], map[];
      completed, updates, freeList, waiters, notifies, notices, finished := {}, {}, map[], map[], multiset{}, [], {};
      nonLazy, successors := map[], map[];
    }

    function C(): Coord
      reads this
    {
      Coord(arrived, scheduled, ready, sent, holders, refs, completed, updates, freeList, waiters, notifies, notices,
            finished)
    }

    /** The graph tables of every request that has arrived are those of its graph. */
    ghost predicate Valid()
      reads this
    {
      TablesOk(g, arrived, nonLazy, successors)
    }

    /** _is_task_ready */
    method IsTaskReady(n: NodeId) returns (isReady: bool)
      requires Valid() && n in g && n.request in arrived
      ensures isReady <==> NonLazyPrerequisites(g, n) <= completed
    {
      isReady := nonLazy[n] <= completed;
    }

    /** Queues those candidates that wait for nothing more and have not been queued. */
    method EnqueueReady(candidates: set<NodeId>) returns (batch: seq<NodeId>)
      requires Valid() && forall n | n in candidates :: n in g && n.request in arrived
      modifies this`scheduled, this`ready
      ensures Lists(batch, NewlyReady(g, old(C()), candidates))
      ensures C() == Enqueue(old(C()), batch) && Valid()
    {
      hide Lists, NewlyReady, NonLazyPrerequisites, TablesOk;
      ghost var c := C();
      batch := [];
      var todo := candidates;
      NoneReady(g, c);
      ghost var done: set<NodeId> := {};
      while todo != {}
        invariant todo + done == candidates && todo !! done && Valid()
        invariant Lists(batch, NewlyReady(g, c, done))
        invariant scheduled == c.scheduled + Dependencies.Elements(batch) && ready == c.ready + batch
        decreases |todo|
      {
        var n :| n in todo;
        batch := Consider(n, c, done, batch);
        todo, done := todo - {n}, done + {n};
      }
      assert done == candidates;
    }

    /** One candidate: queued when it waits for nothing more and is not queued yet. */
    method Consider(n: NodeId, ghost c: Coord, ghost done: set<NodeId>, batch0: seq<NodeId>)
      returns (batch: seq<NodeId>)
      requires Valid() && n in g && n.request in arrived && completed == c.completed
      requires n !in done && Lists(batch0, NewlyReady(g, c, done))
      requires scheduled == c.scheduled + Dependencies.Elements(batch0) && ready == c.ready + batch0
      modifies this`scheduled, this`ready
      ensures Valid() && Lists(batch, NewlyReady(g, c, done + {n}))
      ensures scheduled == c.scheduled + Dependencies.Elements(batch) && ready == c.ready + batch
    {
      hide Lists, NewlyReady, NonLazyPrerequisites, TablesOk;
      batch := batch0;
      var isReady := IsTaskReady(n);
      NotInBatch(g, c, done, n, batch);
      ReadyMore(g, c, done, n, batch);
      if isReady && n !in scheduled {
        ElementsMore(c.ready, batch, n);
        scheduled := scheduled + {n};
        ready := ready + [n];
        batch := batch + [n];
      }
    }

    /** The tables of a request's graph (_build_dependency_graph). */
    method BuildDependencyGraph(request: nat, nodes: seq<NodeId>)
      requires WellFormed(g) && Valid() && Dependencies.NodeList(g, request, nodes) && Distinct(nodes)
                 && request !in arrived
      requires refs.Keys !! ReadTensors(g, NodesOf(g, request))
      modifies this`arrived, this`refs, this`nonLazy, this`successors
      ensures C() == Register(g, old(C()), request) && Valid()
    {
      var prerequisites := Dependencies.GetNodeDependencies(g, request, nodes, false);
      var lazyOnes := Dependencies.GetNodeDependencies(g, request, nodes, true);
      PrerequisitesClosed(g, request, prerequisites);
      var succ := Kahn.Dependents(prerequisites);
      var counts := Dependencies.BuildTensorReferenceCount(g, nodes);
      CountsAre(g, request, nodes, counts);
      SuccessorsAre(g, request, prerequisites, succ);
      Install(request, prerequisites, lazyOnes, succ, counts);
    }

    method Install(request: nat, prerequisites: map<NodeId, set<NodeId>>, lazyOnes: map<NodeId, set<NodeId>>,
                   succ: map<NodeId, set<NodeId>>, counts: map<TensorId, int>)
      requires Valid() && prerequisites.Keys == lazyOnes.Keys == succ.Keys == NodesOf(g, request)
      requires forall n | n in NodesOf(g, request) ::
                 prerequisites[n] == Prerequisites(g, n) && lazyOnes[n] == LazyPrerequisites(g, n)
                   && succ[n] == Successors(g, n)
      requires counts == CountReaders(g, NodesOf(g, request))
      modifies this`arrived, this`refs, this`nonLazy, this`successors
      ensures C() == Register(g, old(C()), request) && Valid()
    {
      hide CountReaders, TablesOk;
      TablesMore(g, arrived, nonLazy, successors, request, prerequisites, lazyOnes, succ);
      nonLazy := nonLazy + map n | n in prerequisites :: prerequisites[n] - lazyOnes[n];
      successors := successors + succ;
      refs := refs + counts;
      arrived := arrived + {request};
    }

    /** execute_workflow, up to waiting for the event. */
    method Submit(request: nat, nodes: seq<NodeId>) returns (batch: seq<NodeId>)
      requires WellFormed(g) && Valid() && Dependencies.NodeList(g, request, nodes) && Distinct(nodes)
                 && request !in arrived
      requires refs.Keys !! ReadTensors(g, NodesOf(g, request))
      modifies this
      ensures Lists(batch, NewlyReady(g, old(C()), NodesOf(g, request)))
      ensures C() == P.Submit(g, old(C()), request, batch) && Valid()
    {
      BuildDependencyGraph(request, nodes);
      assert Dependencies.Elements(nodes) == NodesOf(g, request);
      batch := EnqueueReady(Dependencies.Elements(nodes));
    }

    /** A reported tensor is recorded, and a notification started. */
    method TensorReady(w: Worker, t: TensorId)
      requires Valid()
      modifies this`holders, this`notifies
      ensures C() == ReceiveTensor(old(C()), w, t) && Valid()
    {
      if t !in holders {
        holders := holders[t := {}];
      }
      holders := holders[t := holders[t] + {w}];
      notifies := notifies + multiset{(t, w)};
    }

    /** _mark_node_completed */
    method MarkNodeCompleted(n: NodeId) returns (batch: seq<NodeId>)
      requires Valid() && n in g && n.request in arrived
      modifies this`completed, this`scheduled, this`ready
      ensures Lists(batch, NewlyReady(g, old(C()).(completed := old(completed) + {n}), Successors(g, n)))
      ensures C() == Enqueue(old(C()).(completed := old(completed) + {n}), batch) && Valid()
    {
      completed := completed + {n};
      batch := EnqueueReady(successors[n]);
    }

    /** The completion of a task: its tensors are recorded before its successors are queued. */
    method TaskComplete(w: Worker, n: NodeId, tensors: seq<TensorId>) returns (batch: seq<NodeId>)
      requires Valid() && n in g && n.request in arrived
      modifies this
      ensures var c := ReceiveAll(old(C()), w, tensors);
              && Lists(batch, NewlyReady(g, Complete(c, n), Successors(g, n)))
              && C() == ReceiveDone(g, c, n, batch)
      ensures Valid()
    {
      hide Lists, NewlyReady, Successors, ReceiveAll, TablesOk;
      RecordTensors(w, tensors);
      ghost var c := C();
      batch := MarkNodeCompleted(n);
      updates := updates + {n};
      BatchAgrees(g, c, n, batch);
      assert C() == Enqueue(Complete(c, n), batch);
      DeclareFinished(n.request);
    }

    method RecordTensors(w: Worker, tensors: seq<TensorId>)
      requires Valid()
      modifies this`holders, this`notifies
      ensures C() == ReceiveAll(old(C()), w, tensors) && Valid()
    {
      hide TablesOk;
      for i := 0 to |tensors|
        invariant Valid() && C() == ReceiveAll(old(C()), w, tensors[..i])
      {
        TensorReady(w, tensors[i]);
        assert tensors[..i + 1][..i] == tensors[..i];
      }
      assert tensors[..|tensors|] == tensors;
    }

    method DeclareFinished(request: nat)
      modifies this`finished
      ensures C() == CheckFinished(g, old(C()), request)
    {
      var done := IsRequestComplete(request);
      if done {
        finished := finished + {request};
      }
    }

    /** _is_request_complete compares counts. */
    method IsRequestComplete(request: nat) returns (complete: bool)
      ensures complete <==> |completed * NodesOf(g, request)| == |NodesOf(g, request)|
      ensures complete <==> NodesOf(g, request) <= completed
    {
      complete := |completed * NodesOf(g, request)| == |NodesOf(g, request)|;
      Kahn.SubsetSameSize(completed * NodesOf(g, request), NodesOf(g, request));
    }

    /** _notify_lazy_input_available */
    method NotifyLazyInputAvailable(t: TensorId, source: Worker) returns (listing: seq<Notice>)
      requires Valid()
      modifies this`notifies, this`notices, this`waiters
      ensures Lists(listing, NoticesFor(old(C()), t, source))
      ensures C() == Notify(old(C()), t, source, listing) && Valid()
    {
      hide Lists, TablesOk, NoticesTo, NoticesFor, Notify;
      ghost var c := C();
      NoticesAre(c, t, source);
      notifies := notifies - multiset{(t, source)};
      listing := TellWaiters(t, source);
      NotifyIs(c, t, source, listing);
    }

    /** Every registered task is told once, and the registration is dropped. */
    method TellWaiters(t: TensorId, source: Worker) returns (listing: seq<Notice>)
      modifies this`notices, this`waiters
      ensures Lists(listing, NoticesTo(if t in old(waiters) then old(waiters)[t] else {}, t, source))
      ensures notices == old(notices) + listing && waiters == old(waiters) - {t}
    {
      hide *;
      listing := [];
      if t in waiters {
        listing := SendNotices(waiters[t], t, source);
        waiters := waiters - {t};
      } else {
        NoNotices(t, source);
      }
    }

    method SendNotices(registered: set<(NodeId, Worker)>, t: TensorId, source: Worker) returns (listing: seq<Notice>)
      modifies this`notices
      ensures Lists(listing, NoticesTo(registered, t, source))
      ensures notices == old(notices) + listing
    {
      listing := [];
      var todo := registered;
      ghost var seen: set<(NodeId, Worker)> := {};
      while todo != {}
        invariant todo + seen == registered && todo !! seen
        invariant Lists(listing, NoticesTo(seen, t, source))
        invariant notices == old(notices) + listing
        decreases |todo|
      {
        var p :| p in todo;
        todo := todo - {p};
        NoticeMore(listing, seen, p, t, source);
        listing := listing + [Notice(p.0, p.1, t, source)];
        notices := notices + [Notice(p.0, p.1, t, source)];
        seen := seen + {p};
      }
      assert seen == registered;
    }

    /** What each input of a task reads: where it is, or that it is awaited. */
    method LookUp(n: NodeId) returns (locations: map<TensorId, set<Worker>>, waiting: set<TensorId>)
      requires n in g
      ensures Looked(g[n], holders, g[n].inputs.Keys, locations, waiting)
    {
      hide *;
      locations, waiting := map[], {};
      var keys := g[n].inputs.Keys;
      ghost var seen: set<string> := {};
      NothingLooked(g[n], holders);
      while keys != {}
        invariant keys + seen == g[n].inputs.Keys
        invariant Looked(g[n], holders, seen, locations, waiting)
        decreases |keys|
      {
        var k :| k in keys;
        locations, waiting := LookUpInput(n, k, seen, locations, waiting);
        keys, seen := keys - {k}, seen + {k};
      }
      assert seen == g[n].inputs.Keys;
    }

    method LookUpInput(n: NodeId, k: string, ghost seen: set<string>, found: map<TensorId, set<Worker>>,
                       awaited: set<TensorId>)
      returns (locations: map<TensorId, set<Worker>>, waiting: set<TensorId>)
      requires n in g && k in g[n].inputs && Looked(g[n], holders, seen, found, awaited)
      ensures Looked(g[n], holders, seen + {k}, locations, waiting)
    {
      hide *;
      locations, waiting := found, awaited;
      var input := g[n].inputs[k];
      LookMore(g[n], holders, seen, k, locations, waiting);
      if input.produced && input.tensor in holders {
        locations := locations[input.tensor := holders[input.tensor]];
      } else if input.produced && input.late {
        waiting := waiting + {input.tensor};
      }
    }

    /** The task as it is sent, with the tensors it finds and those it awaits. */
    method PrepareJob(n: NodeId, w: Worker) returns (job: Job)
      requires n in g
      ensures job == JobFor(g, C(), w, n)
    {
      hide Looked, JobFor;
      var locations, waiting := LookUp(n);
      JobIs(g, C(), w, n, locations, waiting);
      return Job(n, w, locations, waiting);
    }

    /** A task waits at worker `w` for each tensor it awaits. */
    method RegisterWaiter(n: NodeId, w: Worker, awaited: set<TensorId>)
      modifies this`waiters
      ensures waiters == WithWaiter(old(waiters), (n, w), awaited)
    {
      hide WithWaiter;
      ghost var before := waiters;
      var todo := awaited;
      ghost var done: set<TensorId> := {};
      WithNoWaiter(waiters, (n, w));
      assert waiters == WithWaiter(before, (n, w), {});
      while todo != {}
        invariant todo + done == awaited && todo !! done
        invariant waiters == WithWaiter(before, (n, w), done)
        decreases |todo|
      {
        var t :| t in todo;
        ghost var some := waiters;
        WithWaiterMore(before, (n, w), done, t);
        if t !in waiters {
          waiters := waiters[t := {}];
        }
        waiters := waiters[t := waiters[t] + {(n, w)}];
        assert waiters == some[t := (if t in some then some[t] else {}) + {(n, w)}];
        todo, done := todo - {t}, done + {t};
      }
      assert done == awaited;
    }

    /** One task of the group; a lazy input cannot be looked up while nothing of its request is recorded. */
    method ComposeTask(ghost c: Coord, w: Worker, group: seq<NodeId>, i: nat) returns (job: Option<Job>)
      requires Valid() && i < |group| && (forall n | n in group :: n in g) && holders == c.holders
      requires waiters == WaitersAfter(g, c, w, group[..i])
      modifies this`waiters
      ensures group[i] in g && job == (if Composable(g, c, group[i]) then Some(JobFor(g, c, w, group[i])) else None)
                && Valid()
      ensures waiters == WaitersAfter(g, c, w, group[..if job.Some? then i + 1 else i])
    {
      hide TablesOk, JobFor, SentAfter, WaitersAfter;
      var n := group[i];
      assert n in group;
      if !Composable(g, C(), n) {
        return None;
      }
      var composed := PrepareJob(n, w);
      SameJob(g, C(), c, w, n);
      SentMore(g, c, w, group, i);
      RegisterWaiter(n, w, composed.waiting);
      job := Some(composed);
    }

    /** The tasks of the group, and what `sent` gains; none if some task cannot be composed. */
    method ComposeTasks(ghost c: Coord, w: Worker, group: seq<NodeId>)
      returns (jobs: Option<seq<Job>>, composed: map<NodeId, Job>)
      requires Valid() && (forall n | n in group :: n in g) && holders == c.holders && waiters == c.waiters
      modifies this`waiters
      ensures Valid() && (jobs.Some? <==> AllComposable(g, c, group))
      ensures jobs.Some? ==> jobs.value == JobsFor(g, c, w, group) && c.sent + composed == SentAfter(g, c, w, group)
      ensures waiters == WaitersAfter(g, c, w, ComposedPart(g, c, group))
    {
      hide *;
      var some: seq<Job> := [];
      composed := map[];
      StartOf(g, c, w, group);
      for i := 0 to |group|
        invariant Valid() && ComposedUpTo(g, c, w, group, some, i)
        invariant c.sent + composed == SentAfter(g, c, w, group[..i]) && waiters == WaitersAfter(g, c, w, group[..i])
      {
        var job := ComposeTask(c, w, group, i);
        if job.None? {
          FailsAt(g, c, w, group, some, i);
          return None, composed;
        }
        ComposedMore(g, c, w, group, some, i, composed);
        some := some + [job.value];
        composed := composed[group[i] := job.value];
      }
      AllComposed(g, c, w, group, some);
      return Some(some), composed;
    }

    /** The frees pending for `w`, which are then pending no more. */
    method TakeFrees(w: Worker) returns (frees: seq<TensorId>)
      modifies this`freeList
      ensures frees == if w in old(freeList) then old(freeList)[w] else []
      ensures freeList == if w in old(freeList) then old(freeList)[w := []] else old(freeList)
    {
      frees := [];
      if w in freeList {
        frees := freeList[w];
        freeList := freeList[w := []];
      }
    }

    /** The group leaves the ready list with the pending frees, and its tasks are composed as far as they can be. */
    method TakeGroup(w: Worker, group: seq<NodeId>)
      returns (frees: seq<TensorId>, jobs: Option<seq<Job>>, composed: map<NodeId, Job>)
      requires Valid() && forall n | n in group :: n in g
      modifies this`ready, this`freeList, this`waiters
      ensures Valid() && (jobs.Some? <==> AllComposable(g, old(C()), group))
      ensures jobs.Some? ==> jobs.value == JobsFor(g, old(C()), w, group)
      ensures jobs.Some? ==> old(C()).sent + composed == SentAfter(g, old(C()), w, group)
      ensures frees == FreeListOf(old(C()), w) && freeList == FreesTaken(old(C()), w)
      ensures ready == Without(old(ready), group)
      ensures waiters == WaitersAfter(g, old(C()), w, ComposedPart(g, old(C()), group))
    {
      hide TablesOk, JobsFor, SentAfter, WaitersAfter, AllComposable, ComposedPart, Without;
      ghost var c := C();
      frees := TakeFrees(w);
      ready := Without(ready, group);
      jobs, composed := ComposeTasks(c, w, group);
    }

    /**
     * _schedule_task_group: the pending frees and the group's tasks make one message. If some task
     * cannot be composed the error is logged and there is no message.
     */
    method ScheduleTaskGroup(w: Worker, group: seq<NodeId>) returns (message: Option<Message>)
      requires Valid() && forall n | n in group :: n in g
      modifies this`ready, this`sent, this`freeList, this`waiters
      ensures AllComposable(g, old(C()), group) ==>
                && message == Some(Message(FreeListOf(old(C()), w), JobsFor(g, old(C()), w, group)))
                && C() == Dispatch(g, old(C()), w, group)
      ensures !AllComposable(g, old(C()), group) ==> message.None? && C() == Drop(g, old(C()), w, group)
      ensures Valid()
    {
      hide TablesOk, Dispatch, Drop, JobsFor, SentAfter, WaitersAfter, AllComposable, ComposedPart, Without, FreesTaken,
           FreeListOf;
      ghost var c := C();
      var frees, jobs, composed := TakeGroup(w, group);
      message := None;
      if jobs.None? {
        DropIs(g, c, w, group);
      } else {
        DispatchIs(g, c, w, group);
        sent := sent + composed;
        message := Some(Message(frees, jobs.value));
      }
    }

    /** Each input that `n` read counts once less; tensors that reach zero are collected. */
    method DecrementReads(n: NodeId) returns (unused: seq<TensorId>)
      requires n in g && Countable(g, n, refs)
      modifies this`refs
      ensures refs == Decrement(g, old(refs), n)
      ensures Lists(unused, UnusedBy(g, old(refs), n))
    {
      hide Lists, Countable, Decremented, Decrement, UnusedBy;
      unused := [];
      ghost var before := refs;
      var keys := g[n].inputs.Keys;
      ghost var seen: set<string> := {};
      NoneCounted(g, n, before);
      while keys != {}
        invariant keys + seen == g[n].inputs.Keys && keys !! seen
        invariant Decremented(g, n, before, seen, refs, unused)
        decreases |keys|
      {
        var k :| k in keys;
        var input := g[n].inputs[k];
        DecrementMore(g, n, before, seen, k, refs, unused);
        if input.produced {
          refs := refs[input.tensor := refs[input.tensor] - 1];
          if refs[input.tensor] == 0 {
            unused := unused + [input.tensor];
          }
        }
        keys, seen := keys - {k}, seen + {k};
      }
      assert seen == g[n].inputs.Keys;
      AllDecremented(g, n, before, refs, unused);
    }

    /** Every recorded holder of `t` gets it on its list. */
    method TellHolders(t: TensorId)
      requires t in holders
      modifies this`freeList
      ensures freeList == WithFree(old(freeList), t, holders[t])
    {
      hide WithFree;
      ghost var before := freeList;
      var todo := holders[t];
      ghost var done: set<Worker> := {};
      WithNoFree(before, t);
      while todo != {}
        invariant todo + done == holders[t] && todo !! done
        invariant freeList == WithFree(before, t, done)
        decreases |todo|
      {
        var w :| w in todo;
        ghost var some := freeList;
        WithFreeMore(before, t, done, w);
        if w !in freeList {
          freeList := freeList[w := []];
        }
        freeList := freeList[w := freeList[w] + [t]];
        assert freeList == some[w := (if w in some then some[w] else []) + [t]];
        todo, done := todo - {w}, done + {w};
      }
      assert done == holders[t];
    }

    /** The recorded holders of every one of `unused` get it on their lists. */
    method TellAllHolders(unused: seq<TensorId>)
      requires forall t | t in unused :: t in holders
      modifies this`freeList
      ensures freeList == TellAll(old(freeList), holders, unused)
    {
      hide WithFree;
      for i := 0 to |unused|
        invariant freeList == TellAll(old(freeList), holders, unused[..i])
      {
        TellHolders(unused[i]);
        assert unused[..i + 1][..i] == unused[..i];
      }
      assert unused[..|unused|] == unused;
    }

    /** _update_free_tensor_dict */
    method UpdateFreeTensorDict(n: NodeId, ghost workers: set<Worker>)
      returns (ghost listings: map<Worker, seq<TensorId>>)
      requires Valid() && n in g && Countable(g, n, refs)
      requires forall t | t in ReadSet(g[n]) :: t in holders && holders[t] <= workers
      modifies this`refs, this`freeList, this`updates
      ensures listings.Keys == workers && forall w | w in workers :: Lists(listings[w], ToFree(g, old(C()), n, w))
      ensures C() == UpdateFree(g, old(C()), n, listings) && Valid()
    {
      hide Lists, TablesOk, Countable, Decrement, UpdateFree, ToFree, TellAll, HeldOf, Unused, UnusedBy;
      ghost var c := C();
      var unused := DecrementReads(n);
      UnusedRead(g, c, n, unused);
      TellAllHolders(unused);
      updates := updates - {n};
      listings := map w | w in workers :: HeldOf(c.holders, unused, w);
      UpdateListings(g, c, n, unused, workers, listings);
    }
  }

  // ---------------------------------------------------------------- freeing

  /** The counts cover at least what `n` reads; an invariant until `n` has been accounted for. */
  ghost predicate Countable(g: Graph, n: NodeId, refs: map<TensorId, int>)
    requires n in g
  {
    forall t | t in ReadSet(g[n]) :: t in refs && refs[t] >= |ReadersOf(g, {n}, t)|
  }

  ghost function UnusedBy(g: Graph, refs: map<TensorId, int>, n: NodeId): set<TensorId>
    requires n in g
  {
    set t | t in ReadSet(g[n]) && t in refs && Decrement(g, refs, n)[t] == 0
  }

  /** The protocol's invariant gives what an update needs. */
  lemma OpenIsCountable(g: Graph, c: Coord, n: NodeId)
    requires Frees.References(g, c) && n in Frees.Open(g, c)
    ensures Countable(g, n, c.refs)
  {
    forall t | t in ReadSet(g[n]) ensures t in c.refs && c.refs[t] >= |ReadersOf(g, {n}, t)| {
      Frees.OpenNotRetired(g, c, n, t);
      ReadersSplit(g, Frees.Open(g, c), n, t);
    }
  }

  /** Those of `read` whose count is down to zero. */
  ghost function ReadNoMore(read: set<TensorId>, refs: map<TensorId, int>): set<TensorId> {
    set t | t in read && t in refs && refs[t] == 0
  }

  ghost predicate Decremented(g: Graph, n: NodeId, before: map<TensorId, int>, seen: set<string>,
                              refs: map<TensorId, int>, unused: seq<TensorId>)
    requires n in g
  {
    && refs.Keys == before.Keys && Countable(g, n, before)
    && (forall t | t in refs :: refs[t] == before[t] - |Dependencies.ReadersAmong(g, n, seen, t)|)
    && Lists(unused, ReadNoMore(ReadAmong(g[n], seen), refs))
  }

  lemma NoneCounted(g: Graph, n: NodeId, before: map<TensorId, int>)
    requires n in g && Countable(g, n, before)
    ensures Decremented(g, n, before, {}, before, [])
  {
    forall t ensures Dependencies.ReadersAmong(g, n, {}, t) == {} {}
    assert ReadAmong(g[n], {}) == {};
  }

  lemma AmongAtMost(g: Graph, n: NodeId, seen: set<string>, t: TensorId)
    requires n in g
    ensures |Dependencies.ReadersAmong(g, n, seen, t)| <= |ReadersOf(g, {n}, t)|
  {
    assert Dependencies.ReadersAmong(g, n, seen, t) <= ReadersOf(g, {n}, t);
    Kahn.SubsetSameSize(Dependencies.ReadersAmong(g, n, seen, t), ReadersOf(g, {n}, t));
  }

  lemma DecrementMore(g: Graph, n: NodeId, before: map<TensorId, int>, seen: set<string>, k: string,
                      refs: map<TensorId, int>, unused: seq<TensorId>)
    requires n in g && k in g[n].inputs && k !in seen && Decremented(g, n, before, seen, refs, unused)
    ensures g[n].inputs[k].produced ==> g[n].inputs[k].tensor in refs
    ensures var t := g[n].inputs[k].tensor;
            if g[n].inputs[k].produced
            then Decremented(g, n, before, seen + {k}, refs[t := refs[t] - 1],
                             if refs[t] == 1 then unused + [t] else unused)
            else Decremented(g, n, before, seen + {k}, refs, unused)
  {
    hide *;
    CountsMore(g, n, seen, k);
    if g[n].inputs[k].produced {
      DecrementRead(g, n, before, seen, k, refs, unused);
    } else {
      DecrementNothing(g, n, before, seen, k, refs, unused);
    }
  }

  /** One more input: its tensor is among those read, by one reader more. */
  lemma CountsMore(g: Graph, n: NodeId, seen: set<string>, k: string)
    requires n in g && k in g[n].inputs && k !in seen
    ensures var input := g[n].inputs[k];
            && (forall u :: |Dependencies.ReadersAmong(g, n, seen + {k}, u)|
                  == |Dependencies.ReadersAmong(g, n, seen, u)| + if input.produced && input.tensor == u then 1 else 0)
            && ReadAmong(g[n], seen + {k})
              == if input.produced then ReadAmong(g[n], seen) + {input.tensor} else ReadAmong(g[n], seen)
  {
    var input := g[n].inputs[k];
    forall u ensures |Dependencies.ReadersAmong(g, n, seen + {k}, u)|
                     == |Dependencies.ReadersAmong(g, n, seen, u)| +
                       if input.produced && input.tensor == u then 1 else 0 {
      Dependencies.ReadersAmongMore(g, n, seen, k, u);
    }
  }

  lemma DecrementNothing(g: Graph, n: NodeId, before: map<TensorId, int>, seen: set<string>, k: string,
                         refs: map<TensorId, int>, unused: seq<TensorId>)
    requires n in g && Decremented(g, n, before, seen, refs, unused)
    requires ReadAmong(g[n], seen + {k}) == ReadAmong(g[n], seen)
    requires forall u :: |Dependencies.ReadersAmong(g, n, seen + {k}, u)| == |Dependencies.ReadersAmong(g, n, seen, u)|
    ensures Decremented(g, n, before, seen + {k}, refs, unused)
  {
    hide Lists, ReadAmong, ReadNoMore, Countable;
  }

  lemma DecrementRead(g: Graph, n: NodeId, before: map<TensorId, int>, seen: set<string>, k: string,
                      refs: map<TensorId, int>, unused: seq<TensorId>)
    requires n in g && k in g[n].inputs && g[n].inputs[k].produced && Decremented(g, n, before, seen, refs, unused)
    requires ReadAmong(g[n], seen + {k}) == ReadAmong(g[n], seen) + {g[n].inputs[k].tensor}
    requires forall u :: |Dependencies.ReadersAmong(g, n, seen + {k}, u)|
               == |Dependencies.ReadersAmong(g, n, seen, u)| + if u == g[n].inputs[k].tensor then 1 else 0
    ensures var t := g[n].inputs[k].tensor;
            && t in refs
            && Decremented(g, n, before, seen + {k}, refs[t := refs[t] - 1],
                           if refs[t] == 1 then unused + [t] else unused)
  {
    hide Lists, ReadAmong, ReadNoMore;
    var t := g[n].inputs[k].tensor;
    assert t in ReadSet(g[n]);
    AmongAtMost(g, n, seen + {k}, t);
    UnusedMore(ReadAmong(g[n], seen), refs, t, unused);
  }

  lemma UnusedMore(read: set<TensorId>, refs: map<TensorId, int>, t: TensorId, unused: seq<TensorId>)
    requires t in refs && refs[t] >= 1 && Lists(unused, ReadNoMore(read, refs))
    ensures var refs' := refs[t := refs[t] - 1];
            Lists(if refs[t] == 1 then unused + [t] else unused, ReadNoMore(read + {t}, refs'))
  {
    assert t !in unused;
  }

  lemma AllDecremented(g: Graph, n: NodeId, before: map<TensorId, int>, refs: map<TensorId, int>, unused: seq<TensorId>)
    requires n in g && Decremented(g, n, before, g[n].inputs.Keys, refs, unused)
    ensures refs == Decrement(g, before, n)
    ensures Lists(unused, UnusedBy(g, before, n))
  {
    forall t ensures Dependencies.ReadersAmong(g, n, g[n].inputs.Keys, t) == ReadersOf(g, {n}, t) {
      Dependencies.ReadersAmongAll(g, n, t);
    }
    AmongAll(g[n]);
  }

  /** Free lists after `t` has been added for each of `ws`. */
  ghost function WithFree(freeList: map<Worker, seq<TensorId>>, t: TensorId, ws: set<Worker>)
    : map<Worker, seq<TensorId>>
  {
    map w | w in freeList.Keys + ws :: (if w in freeList then freeList[w] else []) + if w in ws then [t] else []
  }

  lemma WithNoFree(freeList: map<Worker, seq<TensorId>>, t: TensorId)
    ensures WithFree(freeList, t, {}) == freeList
  {
    var same := WithFree(freeList, t, {});
    assert same.Keys == freeList.Keys;
    forall w | w in freeList ensures same[w] == freeList[w] {}
  }

  lemma WithFreeMore(freeList: map<Worker, seq<TensorId>>, t: TensorId, done: set<Worker>, w: Worker)
    requires w !in done
    ensures var some := WithFree(freeList, t, done);
            WithFree(freeList, t, done + {w}) == some[w := (if w in some then some[w] else []) + [t]]
  {
    var some, more := WithFree(freeList, t, done), WithFree(freeList, t, done + {w});
    assert more.Keys == some.Keys + {w};
    forall v | v in more && v != w ensures more[v] == some[v] {}
    assert more[w] == (if w in some then some[w] else []) + [t];
  }

  ghost function TellAll(freeList: map<Worker, seq<TensorId>>, holders: map<TensorId, set<Worker>>,
                         unused: seq<TensorId>)
    : map<Worker, seq<TensorId>>
    requires forall t | t in unused :: t in holders
  {
    if unused == [] then freeList
    else
      var last := unused[|unused| - 1];
      WithFree(TellAll(freeList, holders, unused[..|unused| - 1]), last, holders[last])
  }

  /** Those of `unused` that `w` holds, in order. */
  ghost function HeldOf(holders: map<TensorId, set<Worker>>, unused: seq<TensorId>, w: Worker): seq<TensorId> {
    if unused == [] then []
    else
      var last := unused[|unused| - 1];
      HeldOf(holders, unused[..|unused| - 1], w) + if last in holders && w in holders[last] then [last] else []
  }

  lemma {:induction false} HeldLists(holders: map<TensorId, set<Worker>>, unused: seq<TensorId>, w: Worker,
                                     all: set<TensorId>)
    requires Lists(unused, all)
    ensures Lists(HeldOf(holders, unused, w), set t | t in all && t in holders && w in holders[t])
    decreases |unused|
  {
    if unused != [] {
      var front, last := unused[..|unused| - 1], unused[|unused| - 1];
      FrontLists(unused, all);
      HeldLists(holders, front, w, all - {last});
      HeldMore(holders, HeldOf(holders, front, w), last, w, all);
    }
  }

  lemma FrontLists(unused: seq<TensorId>, all: set<TensorId>)
    requires Lists(unused, all) && unused != []
    ensures unused[|unused| - 1] in all && Lists(unused[..|unused| - 1], all - {unused[|unused| - 1]})
  {
    var front, last := unused[..|unused| - 1], unused[|unused| - 1];
    assert unused == front + [last];
    assert last !in front;
  }

  lemma HeldMore(holders: map<TensorId, set<Worker>>, held: seq<TensorId>, last: TensorId, w: Worker,
                 all: set<TensorId>)
    requires last in all && Lists(held, set t | t in all - {last} && t in holders && w in holders[t])
    ensures Lists(held + if last in holders && w in holders[last] then [last] else [],
                  set t | t in all && t in holders && w in holders[t])
  {
    assert last !in held;
  }

  lemma {:induction false} TellAllIs(freeList: map<Worker, seq<TensorId>>, holders: map<TensorId, set<Worker>>,
                                     unused: seq<TensorId>, w: Worker)
    requires forall t | t in unused :: t in holders
    ensures w in TellAll(freeList, holders, unused) <==> w in freeList || HeldOf(holders, unused, w) != []
    ensures w in TellAll(freeList, holders, unused) ==>
              TellAll(freeList, holders, unused)[w]
                == (if w in freeList then freeList[w] else []) + HeldOf(holders, unused, w)
    decreases |unused|
  {
    hide *;
    TellAllUnfolds(freeList, holders, unused, w);
    if unused != [] {
      var front, last := unused[..|unused| - 1], unused[|unused| - 1];
      assert last in unused && forall t | t in front :: t in unused;
      TellAllIs(freeList, holders, front, w);
      WithFreeAt(TellAll(freeList, holders, front), last, holders[last], w);
      var base, held := (if w in freeList then freeList[w] else []), HeldOf(holders, front, w);
      assert base + held + [last] == base + (held + [last]);
      assert base + held + [] == base + (held + []);
      assert w !in freeList && held == [] ==> base + [last] == [] + [last];
    }
  }

  lemma TellAllUnfolds(freeList: map<Worker, seq<TensorId>>, holders: map<TensorId, set<Worker>>, unused: seq<TensorId>,
                       w: Worker)
    requires forall t | t in unused :: t in holders
    ensures unused == [] ==> TellAll(freeList, holders, unused) == freeList && HeldOf(holders, unused, w) == []
    ensures unused != [] ==>
              var front, last := unused[..|unused| - 1], unused[|unused| - 1];
              && TellAll(freeList, holders, unused) == WithFree(TellAll(freeList, holders, front), last, holders[last])
              && HeldOf(holders, unused, w) == HeldOf(holders, front, w) + if w in holders[last] then [last] else []
  {
  }

  lemma WithFreeAt(freeList: map<Worker, seq<TensorId>>, t: TensorId, ws: set<Worker>, w: Worker)
    ensures w in WithFree(freeList, t, ws) <==> w in freeList || w in ws
    ensures w in WithFree(freeList, t, ws) ==>
              WithFree(freeList, t, ws)[w] == (if w in freeList then freeList[w] else []) + if w in ws then [t] else []
  {
  }

  lemma UnusedRead(g: Graph, c: Coord, n: NodeId, unused: seq<TensorId>)
    requires n in g && Countable(g, n, c.refs)
    requires Lists(unused, UnusedBy(g, c.refs, n))
    ensures Lists(unused, Unused(g, c, n)) && forall t | t in unused :: t in ReadSet(g[n])
  {
    assert Unused(g, c, n) == UnusedBy(g, c.refs, n);
  }

  lemma UpdateListings(g: Graph, c: Coord, n: NodeId, unused: seq<TensorId>, workers: set<Worker>,
                       listings: map<Worker, seq<TensorId>>)
    requires n in g && Lists(unused, Unused(g, c, n))
               && forall t | t in unused :: t in c.holders && c.holders[t] <= workers
    requires listings == map w | w in workers :: HeldOf(c.holders, unused, w)
    ensures forall w | w in workers :: Lists(listings[w], ToFree(g, c, n, w))
    ensures TellAll(c.freeList, c.holders, unused) == UpdateFree(g, c, n, listings).freeList
    ensures UpdateFree(g, c, n, listings)
            == c.(refs := Decrement(g, c.refs, n), updates := c.updates - {n},
                  freeList := TellAll(c.freeList, c.holders, unused))
  {
    forall w | w in workers ensures Lists(listings[w], ToFree(g, c, n, w)) {
      HeldLists(c.holders, unused, w, Unused(g, c, n));
      assert ToFree(g, c, n, w) == set t | t in Unused(g, c, n) && t in c.holders && w in c.holders[t];
    }
    var told, spec := TellAll(c.freeList, c.holders, unused), UpdateFree(g, c, n, listings).freeList;
    forall w ensures w in told <==> w in spec
             ensures w in told ==> told[w] == spec[w]
    {
      TellAllIs(c.freeList, c.holders, unused, w);
      if w !in workers { HeldNothing(c.holders, unused, w, workers); }
    }
    assert told == spec;
  }

  lemma {:induction false} HeldNothing(holders: map<TensorId, set<Worker>>, unused: seq<TensorId>, w: Worker,
                                       workers: set<Worker>)
    requires w !in workers && forall t | t in unused :: t in holders && holders[t] <= workers
    ensures HeldOf(holders, unused, w) == []
    decreases |unused|
  {
    if unused != [] { HeldNothing(holders, unused[..|unused| - 1], w, workers); }
  }

  // ---------------------------------------------------------------- sending

  function ReadAmong(n: Node, keys: set<string>): set<TensorId> {
    set k | k in keys && k in n.inputs && n.inputs[k].produced :: n.inputs[k].tensor
  }

  function LazyAmong(n: Node, keys: set<string>): set<TensorId> {
    set k | k in keys && k in n.inputs && n.inputs[k].produced && n.inputs[k].late :: n.inputs[k].tensor
  }

  /** Tensors located and lazy ones awaited among the inputs in `seen`. */
  ghost predicate Looked(n: Node, holders: map<TensorId, set<Worker>>, seen: set<string>,
                         locations: map<TensorId, set<Worker>>, waiting: set<TensorId>)
  {
    && locations.Keys == ReadAmong(n, seen) * holders.Keys && (forall t | t in locations :: locations[t] == holders[t])
    && waiting == LazyAmong(n, seen) - holders.Keys
  }

  lemma NothingLooked(n: Node, holders: map<TensorId, set<Worker>>)
    ensures Looked(n, holders, {}, map[], {})
  {
    assert ReadAmong(n, {}) == {} && LazyAmong(n, {}) == {};
  }

  lemma LookMore(n: Node, holders: map<TensorId, set<Worker>>, seen: set<string>, k: string,
                 locations: map<TensorId, set<Worker>>, waiting: set<TensorId>)
    requires k in n.inputs && Looked(n, holders, seen, locations, waiting)
    ensures var input := n.inputs[k];
            if input.produced && input.tensor in holders
            then Looked(n, holders, seen + {k}, locations[input.tensor := holders[input.tensor]], waiting)
            else if input.produced && input.late
                then Looked(n, holders, seen + {k}, locations, waiting + {input.tensor})
            else Looked(n, holders, seen + {k}, locations, waiting)
  {
    var input := n.inputs[k];
    assert ReadAmong(n, seen + {k}) == ReadAmong(n, seen) + if input.produced then {input.tensor} else {};
    assert LazyAmong(n, seen + {k}) == LazyAmong(n, seen) + if input.produced && input.late then {input.tensor} else {};
  }

  lemma JobIs(g: Graph, c: Coord, w: Worker, n: NodeId, locations: map<TensorId, set<Worker>>, waiting: set<TensorId>)
    requires n in g && Looked(g[n], c.holders, g[n].inputs.Keys, locations, waiting)
    ensures Job(n, w, locations, waiting) == JobFor(g, c, w, n)
  {
    AmongAll(g[n]);
    assert locations == JobFor(g, c, w, n).locations;
  }

  lemma AmongAll(n: Node)
    ensures ReadAmong(n, n.inputs.Keys) == ReadSet(n) && LazyAmong(n, n.inputs.Keys) == LazySet(n)
  {
  }

  ghost function SentAfter(g: Graph, c: Coord, w: Worker, group: seq<NodeId>): map<NodeId, Job>
    requires forall n | n in group :: n in g
  {
    c.sent + map n | n in group :: JobFor(g, c, w, n)
  }

  ghost function WaitersAfter(g: Graph, c: Coord, w: Worker, group: seq<NodeId>): map<TensorId, set<(NodeId, Worker)>> {
    map t | t in c.waiters.Keys + Awaited(g, c, group) :: WaitersOf(c, t) + NewWaiters(g, c, w, group, t)
  }

  /** Registrations after `p` has been added for each of `awaited`. */
  ghost function WithWaiter(waiters: map<TensorId, set<(NodeId, Worker)>>, p: (NodeId, Worker), awaited: set<TensorId>)
    : map<TensorId, set<(NodeId, Worker)>>
  {
    map t | t in waiters.Keys + awaited :: (if t in waiters then waiters[t] else {}) + if t in awaited then {p} else {}
  }

  lemma WithNoWaiter(waiters: map<TensorId, set<(NodeId, Worker)>>, p: (NodeId, Worker))
    ensures WithWaiter(waiters, p, {}) == waiters
  {
    var same := WithWaiter(waiters, p, {});
    assert same.Keys == waiters.Keys;
    forall t | t in waiters ensures same[t] == waiters[t] {}
  }

  lemma WithWaiterMore(waiters: map<TensorId, set<(NodeId, Worker)>>, p: (NodeId, Worker), done: set<TensorId>,
                       t: TensorId)
    requires t !in done
    ensures var some := WithWaiter(waiters, p, done);
            WithWaiter(waiters, p, done + {t}) == some[t := (if t in some then some[t] else {}) + {p}]
  {
    var some, more := WithWaiter(waiters, p, done), WithWaiter(waiters, p, done + {t});
    assert more.Keys == some.Keys + {t};
    forall u | u in more && u != t ensures more[u] == some[u] {}
    assert more[t] == (if t in some then some[t] else {}) + {p};
  }

  lemma SentNone(g: Graph, c: Coord, w: Worker)
    ensures SentAfter(g, c, w, []) == c.sent && WaitersAfter(g, c, w, []) == c.waiters
  {
    NobodyWaits(g, c, w);
    hide Awaited, NewWaiters, JobFor;
    var same := WaitersAfter(g, c, w, []);
    assert same.Keys == c.waiters.Keys;
    forall t | t in c.waiters ensures same[t] == c.waiters[t] {}
  }

  lemma NobodyWaits(g: Graph, c: Coord, w: Worker)
    ensures Awaited(g, c, []) == {} && forall t :: NewWaiters(g, c, w, [], t) == {}
  {
  }

  lemma SameJob(g: Graph, c: Coord, c': Coord, w: Worker, n: NodeId)
    requires n in g && c.holders == c'.holders
    ensures JobFor(g, c, w, n) == JobFor(g, c', w, n)
    ensures JobFor(g, c, w, n).waiting == LazySet(g[n]) - c.holders.Keys
  {
  }

  lemma SentMore(g: Graph, c: Coord, w: Worker, group: seq<NodeId>, i: nat)
    requires i < |group| && forall n | n in group :: n in g
    ensures SentAfter(g, c, w, group[..i + 1]) == SentAfter(g, c, w, group[..i])[group[i] := JobFor(g, c, w, group[i])]
    ensures WaitersAfter(g, c, w, group[..i + 1])
              == WithWaiter(WaitersAfter(g, c, w, group[..i]), (group[i], w), LazySet(g[group[i]]) - c.holders.Keys)
  {
    hide JobFor, WaitersAfter, WithWaiter;
    assert group[..i + 1] == group[..i] + [group[i]];
    WaitersMore(g, c, w, group[..i], group[i]);
  }

  lemma WaitersMore(g: Graph, c: Coord, w: Worker, group: seq<NodeId>, n: NodeId)
    requires n in g
    ensures WaitersAfter(g, c, w, group + [n])
              == WithWaiter(WaitersAfter(g, c, w, group), (n, w), LazySet(g[n]) - c.holders.Keys)
  {
    hide Awaited, NewWaiters;
    AwaitedMore(g, c, w, group, n);
    var before, after, awaited := WaitersAfter(g, c, w, group), WaitersAfter(g, c, w, group + [n]),
        LazySet(g[n]) - c.holders.Keys;
    assert after.Keys == before.Keys + awaited == WithWaiter(before, (n, w), awaited).Keys;
    forall t | t in after ensures after[t] == WithWaiter(before, (n, w), awaited)[t] {
      WaitersMoreAt(g, c, w, group, n, t);
    }
  }

  lemma WaitersMoreAt(g: Graph, c: Coord, w: Worker, group: seq<NodeId>, n: NodeId, t: TensorId)
    requires n in g && t in WaitersAfter(g, c, w, group + [n])
    requires t in WithWaiter(WaitersAfter(g, c, w, group), (n, w), LazySet(g[n]) - c.holders.Keys)
    ensures WaitersAfter(g, c, w, group + [n])[t]
              == WithWaiter(WaitersAfter(g, c, w, group), (n, w), LazySet(g[n]) - c.holders.Keys)[t]
  {
    hide Awaited, NewWaiters;
    AwaitedMore(g, c, w, group, n);
    if t !in WaitersAfter(g, c, w, group) {
      assert WaitersOf(c, t) + NewWaiters(g, c, w, group, t) == {};
    }
  }

  lemma AwaitedMore(g: Graph, c: Coord, w: Worker, group: seq<NodeId>, n: NodeId)
    requires n in g
    ensures Awaited(g, c, group + [n]) == Awaited(g, c, group) + (LazySet(g[n]) - c.holders.Keys)
    ensures forall t :: NewWaiters(g, c, w, group + [n], t)
              == NewWaiters(g, c, w, group, t) + if t in LazySet(g[n]) - c.holders.Keys then {(n, w)} else {}
    ensures forall t | t !in Awaited(g, c, group) :: NewWaiters(g, c, w, group, t) == {}
  {
  }

  /** The first `i` tasks of the group have been composed. */
  ghost predicate ComposedUpTo(g: Graph, c: Coord, w: Worker, group: seq<NodeId>, jobs: seq<Job>, i: nat)
    requires forall n | n in group :: n in g
  {
    && i <= |group| && |jobs| == i
    && forall k | 0 <= k < i :: Composable(g, c, group[k]) && jobs[k] == JobFor(g, c, w, group[k])
  }

  lemma StartOf(g: Graph, c: Coord, w: Worker, group: seq<NodeId>)
    requires forall n | n in group :: n in g
    ensures ComposedUpTo(g, c, w, group, [], 0) && c.sent + map[] == SentAfter(g, c, w, group[..0])
    ensures c.waiters == WaitersAfter(g, c, w, group[..0])
  {
    hide SentAfter, WaitersAfter;
    SentNone(g, c, w);
    assert group[..0] == [] && c.sent + map[] == c.sent;
  }

  lemma ComposedMore(g: Graph, c: Coord, w: Worker, group: seq<NodeId>, jobs: seq<Job>, i: nat,
                     composed: map<NodeId, Job>)
    requires (forall n | n in group :: n in g) && i < |group| && ComposedUpTo(g, c, w, group, jobs, i)
    requires Composable(g, c, group[i]) && c.sent + composed == SentAfter(g, c, w, group[..i])
    ensures ComposedUpTo(g, c, w, group, jobs + [JobFor(g, c, w, group[i])], i + 1)
    ensures c.sent + composed[group[i] := JobFor(g, c, w, group[i])] == SentAfter(g, c, w, group[..i + 1])
  {
    hide SentAfter, Composable, JobFor;
    SentMore(g, c, w, group, i);
    assert c.sent + composed[group[i] := JobFor(g, c, w, group[i])]
        == (c.sent + composed)[group[i] := JobFor(g, c, w, group[i])];
  }

  lemma AllComposed(g: Graph, c: Coord, w: Worker, group: seq<NodeId>, jobs: seq<Job>)
    requires (forall n | n in group :: n in g) && ComposedUpTo(g, c, w, group, jobs, |group|)
    ensures AllComposable(g, c, group) && jobs == JobsFor(g, c, w, group)
    ensures group[..|group|] == group && ComposedPart(g, c, group) == group
  {
    hide Composable, JobFor;
    assert group[..|group|] == group;
    WholePart(g, c, group);
  }

  /** Where the first failing task is, what is left registered is what comes before it. */
  lemma FailsAt(g: Graph, c: Coord, w: Worker, group: seq<NodeId>, jobs: seq<Job>, i: nat)
    requires (forall n | n in group :: n in g) && i < |group| && !Composable(g, c, group[i])
    requires ComposedUpTo(g, c, w, group, jobs, i)
    ensures !AllComposable(g, c, group) && ComposedPart(g, c, group) == group[..i]
  {
    hide Composable, JobFor;
    assert group[i] in group;
    PartBefore(g, c, group, i);
  }

  lemma {:induction false} WholePart(g: Graph, c: Coord, group: seq<NodeId>)
    requires (forall n | n in group :: n in g) && AllComposable(g, c, group)
    ensures ComposedPart(g, c, group) == group
  {
    hide Composable;
    if group != [] {
      WholePart(g, c, group[1..]);
      assert group == [group[0]] + group[1..];
    }
  }

  lemma {:induction false} PartBefore(g: Graph, c: Coord, group: seq<NodeId>, i: nat)
    requires (forall n | n in group :: n in g) && i < |group| && !Composable(g, c, group[i])
    requires forall k | 0 <= k < i :: Composable(g, c, group[k])
    ensures ComposedPart(g, c, group) == group[..i]
  {
    if i > 0 {
      assert group[1..][i - 1] == group[i] && forall k | 0 <= k < i - 1 :: group[1..][k] == group[k + 1];
      PartBefore(g, c, group[1..], i - 1);
      assert group[..i] == [group[0]] + group[1..][..i - 1];
    }
  }

  ghost function FreesTaken(c: Coord, w: Worker): map<Worker, seq<TensorId>> {
    if w in c.freeList then c.freeList[w := []] else c.freeList
  }

  lemma DropIs(g: Graph, c: Coord, w: Worker, group: seq<NodeId>)
    requires forall n | n in group :: n in g
    ensures Drop(g, c, w, group)
            == c.(ready := Without(c.ready, group), waiters := WaitersAfter(g, c, w, ComposedPart(g, c, group)),
                  freeList := FreesTaken(c, w))
  {
    hide Composable, Without, Awaited, NewWaiters;
  }

  lemma DispatchIs(g: Graph, c: Coord, w: Worker, group: seq<NodeId>)
    requires (forall n | n in group :: n in g) && AllComposable(g, c, group)
    ensures Dispatch(g, c, w, group)
            == c.(ready := Without(c.ready, group), sent := SentAfter(g, c, w, group),
                  waiters := WaitersAfter(g, c, w, ComposedPart(g, c, group)), freeList := FreesTaken(c, w))
  {
    hide Composable, Without, Awaited, NewWaiters, JobFor;
    WholePart(g, c, group);
  }

  // ---------------------------------------------------------------- lemmas

  ghost function ReceiveAll(c: Coord, w: Worker, tensors: seq<TensorId>): Coord {
    if tensors == [] then c
    else ReceiveTensor(ReceiveAll(c, w, tensors[..|tensors| - 1]), w, tensors[|tensors| - 1])
  }

  lemma TablesMore(g: Graph, arrived: set<nat>, nonLazy: map<NodeId, set<NodeId>>, successors: map<NodeId, set<NodeId>>,
                   request: nat, prerequisites: map<NodeId, set<NodeId>>, lazyOnes: map<NodeId, set<NodeId>>,
                   succ: map<NodeId, set<NodeId>>)
    requires TablesOk(g, arrived, nonLazy, successors)
               && prerequisites.Keys == lazyOnes.Keys == succ.Keys == NodesOf(g, request)
    requires forall n | n in NodesOf(g, request) ::
               prerequisites[n] == Prerequisites(g, n) && lazyOnes[n] == LazyPrerequisites(g, n)
                 && succ[n] == Successors(g, n)
    ensures TablesOk(g, arrived + {request}, nonLazy + map n | n in prerequisites :: prerequisites[n] - lazyOnes[n],
                     successors + succ)
  {
    hide Prerequisites, LazyPrerequisites, Successors;
    assert forall n | n in g && n.request == request :: n in NodesOf(g, request);
  }

  lemma NoneReady(g: Graph, c: Coord)
    ensures Lists([], NewlyReady(g, c, {})) && Enqueue(c, []) == c
  {
  }

  lemma NotifyIs(c: Coord, t: TensorId, source: Worker, listing: seq<Notice>)
    ensures Notify(c, t, source, listing)
            == c.(notifies := c.notifies - multiset{(t, source)}, notices := c.notices + listing,
                  waiters := c.waiters - {t})
  {
  }

  lemma NoNotices(t: TensorId, source: Worker)
    ensures Lists([], NoticesTo({}, t, source))
  {
  }

  lemma NoticesAre(c: Coord, t: TensorId, source: Worker)
    ensures NoticesFor(c, t, source) == NoticesTo(if t in c.waiters then c.waiters[t] else {}, t, source)
  {
  }

  lemma ElementsMore(ready: seq<NodeId>, batch: seq<NodeId>, n: NodeId)
    ensures ready + batch + [n] == ready + (batch + [n])
    ensures Dependencies.Elements(batch + [n]) == Dependencies.Elements(batch) + {n}
  {
  }

  lemma NotInBatch(g: Graph, c: Coord, done: set<NodeId>, n: NodeId, batch: seq<NodeId>)
    requires n !in done && Lists(batch, NewlyReady(g, c, done))
    ensures n !in batch
  {
  }

  lemma ReadyMore(g: Graph, c: Coord, done: set<NodeId>, n: NodeId, batch: seq<NodeId>)
    requires n in g && n !in done && Lists(batch, NewlyReady(g, c, done))
    ensures Lists(if NonLazyPrerequisites(g, n) <= c.completed && n !in c.scheduled then batch + [n] else batch,
                  NewlyReady(g, c, done + {n}))
  {
    NotInBatch(g, c, done, n, batch);
  }

  lemma PrerequisitesClosed(g: Graph, request: nat, prerequisites: map<NodeId, set<NodeId>>)
    requires prerequisites.Keys == NodesOf(g, request)
               && forall n | n in prerequisites :: n in g && prerequisites[n] == Prerequisites(g, n)
    ensures Kahn.Closed(prerequisites)
  {
  }

  lemma SuccessorsAre(g: Graph, request: nat, prerequisites: map<NodeId, set<NodeId>>, succ: map<NodeId, set<NodeId>>)
    requires prerequisites.Keys == NodesOf(g, request)
               && forall n | n in prerequisites :: n in g && prerequisites[n] == Prerequisites(g, n)
    requires succ.Keys == prerequisites.Keys
               && forall d | d in succ :: succ[d] == Kahn.Waiters(prerequisites, prerequisites.Keys, d)
    ensures forall n | n in NodesOf(g, request) :: succ[n] == Successors(g, n)
  {
  }

  lemma CountsAre(g: Graph, request: nat, nodes: seq<NodeId>, counts: map<TensorId, int>)
    requires Dependencies.NodeList(g, request, nodes)
    requires forall t :: t in counts <==> |ReadersOf(g, NodesOf(g, request), t)| > 0
    requires forall t | t in counts :: counts[t] == |ReadersOf(g, NodesOf(g, request), t)|
    ensures counts == CountReaders(g, NodesOf(g, request))
  {
    forall t ensures t in counts <==> t in ReadTensors(g, NodesOf(g, request)) {
      if t in counts {
        assert ReadersOf(g, NodesOf(g, request), t) != {};
        var p :| p in ReadersOf(g, NodesOf(g, request), t);
        assert t in ReadSet(g[p.0]);
      }
      if t in ReadTensors(g, NodesOf(g, request)) {
        var n :| n in NodesOf(g, request) && n in g && t in ReadSet(g[n]);
        ReaderCounts(g, NodesOf(g, request), n, t);
      }
    }
  }

  lemma BatchAgrees(g: Graph, c: Coord, n: NodeId, batch: seq<NodeId>)
    requires Lists(batch, NewlyReady(g, c.(completed := c.completed + {n}), Successors(g, n)))
    ensures Lists(batch, NewlyReady(g, Complete(c, n), Successors(g, n)))
  {
    assert NewlyReady(g, c.(completed := c.completed + {n}), Successors(g, n))
        == NewlyReady(g, Complete(c, n), Successors(g, n));
  }

  lemma NoticeMore(listing: seq<Notice>, seen: set<(NodeId, Worker)>, p: (NodeId, Worker), t: TensorId, source: Worker)
    requires p !in seen && Lists(listing, NoticesTo(seen, t, source))
    ensures Lists(listing + [Notice(p.0, p.1, t, source)], NoticesTo(seen + {p}, t, source))
  {
    var m := Notice(p.0, p.1, t, source);
    assert m !in listing;
    forall x ensures x in listing + [m] <==> x in NoticesTo(seen + {p}, t, source) {
      if x in listing { assert x in NoticesTo(seen, t, source); }
    }
  }
}
