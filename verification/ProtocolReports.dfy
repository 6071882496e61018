/** What reports a worker may have under way, in which order, and what it keeps in its store. */
module ProtocolReports {
  import opened Wrappers
  import opened TaskGraphs
  import opened Protocol
  import opened ProtocolLifecycle

  // ---------------------------------------------------------------- reports under way

  function Reported(outbox: seq<Report>): set<TensorId> {
    set r | r in outbox && r.Tensor? :: r.tensor
  }

  /**
   * When the reports are received in turn, starting from the recorded tensors `known`: an output is
   * announced for the first time, a copy is of something recorded, and when a task is reported done
   * everything it read and output has been.
   */
  ghost predicate Deliverable(g: Graph, known: set<TensorId>, outbox: seq<Report>)
    decreases |outbox|
  {
    if outbox == [] then true
    else
      match outbox[0]
      case Tensor(n, t) =>
        && n in g
        && (if t in g[n].outputs then t !in known else t in ReadSet(g[n]) && t in known)
        && Deliverable(g, known + {t}, outbox[1..])
      case Done(n) =>
        n in g && ReadSet(g[n]) + g[n].outputs <= known && Deliverable(g, known, outbox[1..])
  }

  /** A reporting task is still running or its completion is reported later. */
  ghost predicate Attributed(outbox: seq<Report>, alive: set<NodeId>) {
    if outbox == [] then true
    else (outbox[0].Tensor? ==> outbox[0].node in alive || outbox[0].node in DoneNodes(outbox))
         && Attributed(outbox[1..], alive)
  }

  lemma ReportedSplit(outbox: seq<Report>)
    requires outbox != []
    ensures Reported(outbox) == Reported(outbox[1..]) + if outbox[0].Tensor? then {outbox[0].tensor} else {}
  {
    assert outbox == [outbox[0]] + outbox[1..];
  }

  lemma ReportedAppend(a: seq<Report>, b: seq<Report>)
    ensures Reported(a + b) == Reported(a) + Reported(b)
  {
  }

  lemma {:induction false} DeliverableAppend(g: Graph, known: set<TensorId>, a: seq<Report>, b: seq<Report>)
    requires Deliverable(g, known, a) && Deliverable(g, known + Reported(a), b)
    ensures Deliverable(g, known, a + b)
    decreases |a|
  {
    if a == [] {
      assert a + b == b && known + Reported(a) == known;
    } else {
      assert (a + b)[1..] == a[1..] + b;
      ReportedSplit(a);
      var known1 := known + if a[0].Tensor? then {a[0].tensor} else {};
      assert known1 + Reported(a[1..]) == known + Reported(a);
      assert a[0].Done? ==> known1 == known;
      DeliverableAppend(g, known1, a[1..], b);
    }
  }

  /** Recording something that is announced nowhere in the reports does not disturb them. */
  lemma {:induction false} DeliverableMore(g: Graph, known: set<TensorId>, t: TensorId, outbox: seq<Report>)
    requires Deliverable(g, known, outbox)
    requires t !in known ==>
               forall r | r in outbox && r.Tensor? && r.tensor == t :: r.node !in g || t !in g[r.node].outputs
    ensures Deliverable(g, known + {t}, outbox)
    decreases |outbox|
  {
    if outbox != [] {
      assert outbox[0] in outbox;
      var known1 := known + if outbox[0].Tensor? then {outbox[0].tensor} else {};
      assert forall r | r in outbox[1..] :: r in outbox;
      assert outbox[0].Done? ==> known1 == known;
      DeliverableMore(g, known1, t, outbox[1..]);
      assert known1 + {t} == known + {t} + if outbox[0].Tensor? then {outbox[0].tensor} else {};
      if outbox[0].Done? { assert known1 + {t} == known + {t}; }
    }
  }

  /** What is reported is recorded already or announced by its producer in the same reports. */
  lemma {:induction false} ReportedIsKnown(g: Graph, known: set<TensorId>, outbox: seq<Report>, t: TensorId)
    requires Deliverable(g, known, outbox) && t in Reported(outbox) && t !in known
    ensures exists r :: r in outbox && r.Tensor? && r.tensor == t && r.node in g && t in g[r.node].outputs
    decreases |outbox|
  {
    if outbox != [] {
      ReportedSplit(outbox);
      if outbox[0].Tensor? && outbox[0].tensor == t {
        assert outbox[0] in outbox;
      } else {
        var known1 := known + if outbox[0].Tensor? then {outbox[0].tensor} else {};
        assert outbox[0].Done? ==> known1 == known;
        ReportedIsKnown(g, known1, outbox[1..], t);
        assert forall r | r in outbox[1..] :: r in outbox;
      }
    }
  }

  lemma {:induction false} AttributedMeans(outbox: seq<Report>, alive: set<NodeId>)
    requires Attributed(outbox, alive)
    ensures forall r | r in outbox && r.Tensor? :: r.node in alive || r.node in DoneNodes(outbox)
  {
    if outbox != [] {
      AttributedMeans(outbox[1..], alive);
      assert outbox == [outbox[0]] + outbox[1..];
    }
  }

  lemma {:induction false} AttributedAppend(a: seq<Report>, b: seq<Report>, alive: set<NodeId>, alive': set<NodeId>)
    requires Attributed(a, alive) && Attributed(b, alive')
    requires forall n | n in alive :: n in alive' || n in DoneNodes(b)
    ensures Attributed(a + b, alive')
  {
    DoneNodesAppend(a, b);
    if a == [] {
      assert a + b == b;
    } else {
      assert (a + b)[1..] == a[1..] + b;
      AttributedAppend(a[1..], b, alive, alive');
    }
  }

  lemma {:induction false} DoneInOutbox(outbox: seq<Report>, n: NodeId)
    ensures n in DoneNodes(outbox) <==> Done(n) in outbox
  {
    if outbox != [] {
      DoneInOutbox(outbox[1..], n);
      assert outbox == [outbox[0]] + outbox[1..];
    }
  }

  // ---------------------------------------------------------------- outputs under way

  ghost predicate UnbornAt(g: Graph, known: set<TensorId>, nodes: seq<NodeId>) {
    forall p | p in nodes :: p in g && g[p].outputs !! known
  }

  /** Of a task's outputs, exactly the emitted ones are under way or recorded; none before it starts. */
  ghost predicate Births(g: Graph, known: set<TensorId>, x: WorkerState) {
    && UnbornAt(g, known, InboxNodes(x.inbox))
    && forall p | p in JobNodes(x.running) :: p in g && g[p].outputs * known == g[p].outputs * x.emitted
  }

  ghost function Known(c: Coord, x: WorkerState): set<TensorId> {
    c.holders.Keys + Reported(x.outbox)
  }

  ghost predicate JobsMatch(sent: map<NodeId, Job>, w: Worker, jobs: seq<Job>) {
    forall j | j in jobs :: j.node in sent && sent[j.node] == j && j.worker == w
  }

  ghost predicate MessagesMatch(sent: map<NodeId, Job>, w: Worker, inbox: seq<Message>) {
    forall m | m in inbox :: JobsMatch(sent, w, m.jobs)
  }

  /** A job's tensors: the located ones are where it says, and with the awaited ones they are all it reads. */
  ghost predicate JobOk(g: Graph, holders: map<TensorId, set<Worker>>, j: Job) {
    && j.node in g
    && j.locations.Keys <= ReadSet(g[j.node]) <= j.locations.Keys + j.waiting
    && j.waiting <= LazySet(g[j.node]) && j.waiting !! j.locations.Keys
    && forall t | t in j.locations :: t in holders && {} != j.locations[t] <= holders[t]
  }

  /** Everything a worker reports, stores and works on fits together. */
  ghost predicate Consistent(g: Graph, c: Coord, w: Worker, x: WorkerState) {
    && JobsMatch(c.sent, w, x.running) && MessagesMatch(c.sent, w, x.inbox)
    && Deliverable(g, c.holders.Keys, x.outbox)
    && Attributed(x.outbox, set n | n in JobNodes(x.running))
    && Births(g, Known(c, x), x)
    && x.store <= Known(c, x)
    && (forall j | j in x.running :: j.locations.Keys <= x.store)
  }

  // ---------------------------------------------------------------- worker steps keep it

  lemma JobNodesMembers(jobs: seq<Job>)
    ensures forall j | j in jobs :: j.node in JobNodes(jobs)
    ensures forall n | n in JobNodes(jobs) :: exists j :: j in jobs && j.node == n
  {
    forall j | j in jobs ensures j.node in JobNodes(jobs) {
      var i :| 0 <= i < |jobs| && jobs[i] == j;
      assert JobNodes(jobs)[i] == j.node;
    }
    forall n | n in JobNodes(jobs) ensures exists j :: j in jobs && j.node == n {
      var i :| 0 <= i < |jobs| && JobNodes(jobs)[i] == n;
      assert jobs[i] in jobs;
    }
  }

  lemma LocatedKnown(g: Graph, c: Coord, w: Worker, jobs: seq<Job>)
    requires JobsMatch(c.sent, w, jobs) && forall n | n in c.sent :: JobOk(g, c.holders, c.sent[n])
    ensures Located(jobs) <= c.holders.Keys
  {
    forall j, t | j in jobs && t in j.locations ensures t in c.holders {
      assert JobOk(g, c.holders, c.sent[j.node]);
    }
  }

  lemma StartConsistent(g: Graph, c: Coord, w: Worker, x: WorkerState)
    requires Consistent(g, c, w, x) && x.running == [] && x.inbox != []
    requires forall n | n in c.sent :: JobOk(g, c.holders, c.sent[n])
    ensures Consistent(g, c, w, Start(x))
  {
    var m, x' := x.inbox[0], Start(x);
    assert x.inbox == [m] + x.inbox[1..];
    assert JobsMatch(c.sent, w, m.jobs);
    LocatedKnown(g, c, w, m.jobs);
    assert InboxNodes(x.inbox) == JobNodes(m.jobs) + InboxNodes(x.inbox[1..]);
    AttributedMore(x.outbox, set n | n in JobNodes(x.running), set n | n in JobNodes(m.jobs));
  }

  lemma {:induction false} AttributedMore(outbox: seq<Report>, alive: set<NodeId>, alive': set<NodeId>)
    requires Attributed(outbox, alive) && alive <= alive'
    ensures Attributed(outbox, alive')
  {
    if outbox != [] { AttributedMore(outbox[1..], alive, alive'); }
  }

  lemma EmitConsistent(g: Graph, c: Coord, w: Worker, x: WorkerState, n: NodeId, t: TensorId)
    requires WellFormed(g) && Consistent(g, c, w, x) && Distinct(Pipeline(x))
    requires n in g && t in g[n].outputs && t !in x.emitted && n in JobNodes(x.running)
    ensures Consistent(g, c, w, Emit(x, n, t))
  {
    var x' := Emit(x, n, t);
    assert t !in Known(c, x) by { assert t !in g[n].outputs * x.emitted; }
    assert Deliverable(g, Known(c, x), [Tensor(n, t)]) by { assert [Tensor(n, t)][1..] == []; }
    DeliverableAppend(g, c.holders.Keys, x.outbox, [Tensor(n, t)]);
    ReportedAppend(x.outbox, [Tensor(n, t)]);
    assert Reported([Tensor(n, t)]) == {t};
    var alive := set m | m in JobNodes(x.running);
    assert Attributed([Tensor(n, t)], alive) by { assert [Tensor(n, t)][1..] == []; }
    AttributedAppend(x.outbox, [Tensor(n, t)], alive, alive);
    EmitBirths(g, Known(c, x), x, n, t);
  }

  lemma NotInInbox(x: WorkerState, n: NodeId)
    requires Distinct(Pipeline(x)) && n in JobNodes(x.running)
    ensures n !in InboxNodes(x.inbox)
  {
    var a, b, d := DoneNodes(x.outbox), JobNodes(x.running), InboxNodes(x.inbox);
    var i :| 0 <= i < |b| && b[i] == n;
    forall k | 0 <= k < |d| ensures d[k] != n {
      assert Pipeline(x)[|a| + i] == n && Pipeline(x)[|a| + |b| + k] == d[k];
    }
  }

  lemma EmitBirths(g: Graph, known: set<TensorId>, x: WorkerState, n: NodeId, t: TensorId)
    requires WellFormed(g) && Births(g, known, x) && Distinct(Pipeline(x))
    requires n in g && t in g[n].outputs && n in JobNodes(x.running)
    ensures Births(g, known + {t}, Emit(x, n, t))
  {
    NotInInbox(x, n);
    forall p | p in g && p != n ensures t !in g[p].outputs {}
    forall p | p in JobNodes(x.running) ensures g[p].outputs * (known + {t}) == g[p].outputs * (x.emitted + {t}) {
      assert g[p].outputs * known == g[p].outputs * x.emitted;
      assert forall u | u in g[p].outputs :: u in known <==> u in g[p].outputs * known;
      assert forall u | u in g[p].outputs :: u in x.emitted <==> u in g[p].outputs * x.emitted;
    }
  }

  lemma {:induction false} ListingDeliverable(g: Graph, known: set<TensorId>, n: NodeId, listing: seq<TensorId>)
    requires n in g && Distinct(listing)
    requires forall t | t in listing :: if t in g[n].outputs then t !in known else t in ReadSet(g[n]) && t in known
    requires ReadSet(g[n]) + g[n].outputs <= known + set t | t in listing
    ensures Deliverable(g, known, TensorReports(n, listing) + [Done(n)])
    decreases |listing|
  {
    var reports := TensorReports(n, listing) + [Done(n)];
    if listing == [] {
      assert reports == [Done(n)] && reports[1..] == [];
      assert known + (set t | t in listing) == known;
    } else {
      var rest := listing[1..];
      assert reports[1..] == TensorReports(n, rest) + [Done(n)];
      assert listing == [listing[0]] + rest;
      forall t | t in rest ensures t != listing[0] {
        var i :| 0 <= i < |rest| && rest[i] == t;
        assert listing[i + 1] == t;
      }
      assert known + {listing[0]} + (set t | t in rest) == known + set t | t in listing;
      ListingDeliverable(g, known + {listing[0]}, n, rest);
    }
  }

  lemma {:induction false} ReportsAttributed(n: NodeId, listing: seq<TensorId>, alive: set<NodeId>)
    ensures Attributed(TensorReports(n, listing) + [Done(n)], alive)
    ensures Reported(TensorReports(n, listing) + [Done(n)]) == set t | t in listing
    ensures DoneNodes(TensorReports(n, listing) + [Done(n)]) == [n]
    decreases |listing|
  {
    var reports := TensorReports(n, listing) + [Done(n)];
    if listing == [] {
      assert reports == [Done(n)] && reports[1..] == [];
      assert Reported(reports) == {};
    } else {
      assert reports[1..] == TensorReports(n, listing[1..]) + [Done(n)];
      assert listing == [listing[0]] + listing[1..];
      ReportsAttributed(n, listing[1..], alive);
      ReportedSplit(reports);
    }
  }

  lemma ReadsNotOwn(g: Graph, n: NodeId)
    requires WellFormed(g) && n in g
    ensures ReadSet(g[n]) !! g[n].outputs
  {
    forall t | t in ReadSet(g[n]) ensures t !in g[n].outputs {
      assert HasProducer(g, n, t);
      var m :| m in g && m != n && m.request == n.request && t in g[m].outputs;
      assert g[m].outputs !! g[n].outputs;
    }
  }

  /** What a finishing job reports, against what is known. */
  lemma OwedFacts(g: Graph, c: Coord, x: WorkerState, j: Job)
    requires WellFormed(g) && JobOk(g, c.holders, j) && j.waiting <= x.store <= Known(c, x)
    requires g[j.node].outputs * Known(c, x) == g[j.node].outputs * x.emitted
    ensures var known, n := Known(c, x), j.node;
            && (forall t | t in Owed(g, x, j) ::
                if t in g[n].outputs then t !in known else t in ReadSet(g[n]) && t in known)
            && ReadSet(g[n]) + g[n].outputs <= known + Owed(g, x, j)
            && Owed(g, x, j) <= g[n].outputs + known
  {
    var known, n := Known(c, x), j.node;
    ReadsNotOwn(g, n);
    forall t | t in g[n].outputs ensures t in known <==> t in x.emitted {
      assert t in g[n].outputs * known <==> t in g[n].outputs * x.emitted;
    }
  }

  lemma FinishBirths(g: Graph, known: set<TensorId>, x: WorkerState, reports: seq<TensorId>)
    requires WellFormed(g) && Births(g, known, x) && Distinct(Pipeline(x)) && x.running != [] && x.running[0].node in g
    requires forall t | t in reports :: t in g[x.running[0].node].outputs || t in known
    ensures Births(g, known + (set t | t in reports), Finish(g, x, reports))
  {
    var n, x', known' := x.running[0].node, Finish(g, x, reports), known + set t | t in reports;
    assert JobNodes(x.running)[0] == n && n in JobNodes(x.running);
    assert JobNodes(x.running) == [n] + JobNodes(x'.running);
    NotInInbox(x, n);
    forall p | p in InboxNodes(x.inbox) ensures g[p].outputs !! known' {
      assert g[p].outputs !! g[n].outputs;
    }
    forall p | p in JobNodes(x'.running) ensures p in g && g[p].outputs * known' == g[p].outputs * x.emitted {
      RunningOnce(x, p);
      assert g[p].outputs !! g[n].outputs;
      assert g[p].outputs * known' == g[p].outputs * known;
    }
  }

  lemma RunningOnce(x: WorkerState, p: NodeId)
    requires Distinct(Pipeline(x)) && x.running != [] && p in JobNodes(x.running[1..])
    ensures p in JobNodes(x.running) && p != x.running[0].node
  {
    var a, b := DoneNodes(x.outbox), JobNodes(x.running);
    var i :| 0 <= i < |JobNodes(x.running[1..])| && JobNodes(x.running[1..])[i] == p;
    assert b[i + 1] == p;
    assert Pipeline(x)[|a|] == b[0] && Pipeline(x)[|a| + i + 1] == b[i + 1];
  }

  lemma FinishConsistent(g: Graph, c: Coord, w: Worker, x: WorkerState, reports: seq<TensorId>)
    requires WellFormed(g) && Consistent(g, c, w, x) && Distinct(Pipeline(x))
    requires x.running != [] && JobOk(g, c.holders, x.running[0]) && x.running[0].waiting <= x.store
    requires Lists(reports, Owed(g, x, x.running[0]))
    ensures Consistent(g, c, w, Finish(g, x, reports))
  {
    hide Attributed, Deliverable, ReadSet, Reported, TensorReports;
    var j, x' := x.running[0], Finish(g, x, reports);
    var n, new_ := j.node, TensorReports(j.node, reports) + [Done(j.node)];
    assert JobNodes(x.running)[0] == n && n in JobNodes(x.running);
    OwedFacts(g, c, x, j);
    assert Owed(g, x, j) == set t | t in reports;
    ListingDeliverable(g, Known(c, x), n, reports);
    DeliverableAppend(g, c.holders.Keys, x.outbox, new_);
    assert x'.outbox == x.outbox + new_;
    FinishAttributed(x, n, reports, new_);
    ReportedAppend(x.outbox, new_);
    assert Known(c, x') == Known(c, x) + set t | t in reports;
    FinishBirths(g, Known(c, x), x, reports);
    assert forall k | k in x'.running :: k in x.running;
  }

  lemma FinishAttributed(x: WorkerState, n: NodeId, reports: seq<TensorId>, new_: seq<Report>)
    requires x.running != [] && x.running[0].node == n && Attributed(x.outbox, set m | m in JobNodes(x.running))
    requires new_ == TensorReports(n, reports) + [Done(n)]
    ensures Attributed(x.outbox + new_, set m | m in JobNodes(x.running[1..]))
    ensures Reported(new_) == set t | t in reports
  {
    var alive := set m | m in JobNodes(x.running[1..]);
    ReportsAttributed(n, reports, alive);
    assert JobNodes(x.running) == [n] + JobNodes(x.running[1..]);
    AttributedAppend(x.outbox, new_, (set m | m in JobNodes(x.running)), alive);
  }

  lemma AcquireConsistent(g: Graph, c: Coord, w: Worker, x: WorkerState, t: TensorId)
    requires Consistent(g, c, w, x) && t in c.holders
    ensures Consistent(g, c, w, x.(store := x.store + {t}))
  {
  }

  // ---------------------------------------------------------------- coordinator steps keep it

  lemma AcceptConsistent(g: Graph, c: Coord, c': Coord, w: Worker, x: WorkerState, m: Message)
    requires Consistent(g, c, w, x) && c'.holders == c.holders && JobsMatch(c'.sent, w, m.jobs)
    requires forall n | n in c.sent :: n in c'.sent && c'.sent[n] == c.sent[n]
    requires UnbornAt(g, Known(c, x), JobNodes(m.jobs))
    ensures Consistent(g, c', w, x.(inbox := x.inbox + [m]))
  {
    InboxNodesAppend(x.inbox, [m]);
    assert InboxNodes([m]) == JobNodes(m.jobs) by { assert [m][1..] == []; }
    forall k | k in x.inbox + [m] ensures JobsMatch(c'.sent, w, k.jobs) {
      if k in x.inbox { assert JobsMatch(c.sent, w, k.jobs); }
    }
  }

  /** Tasks sent elsewhere do not concern this worker. */
  lemma OthersConsistent(g: Graph, c: Coord, c': Coord, w: Worker, x: WorkerState)
    requires Consistent(g, c, w, x) && c'.holders == c.holders
    requires forall n | n in c.sent :: n in c'.sent && c'.sent[n] == c.sent[n]
    ensures Consistent(g, c', w, x)
  {
    forall m | m in x.inbox ensures JobsMatch(c'.sent, w, m.jobs) {
      assert JobsMatch(c.sent, w, m.jobs);
    }
  }

  /** The head of the reports is received. */
  lemma ReceiveConsistent(g: Graph, c: Coord, c': Coord, w: Worker, x: WorkerState)
    requires Consistent(g, c, w, x) && x.outbox != [] && c'.sent == c.sent
    requires c'.holders.Keys == c.holders.Keys + if x.outbox[0].Tensor? then {x.outbox[0].tensor} else {}
    ensures Consistent(g, c', w, x.(outbox := x.outbox[1..]))
  {
    ReportedSplit(x.outbox);
    assert Known(c', x.(outbox := x.outbox[1..])) == Known(c, x);
    if x.outbox[0].Done? { assert c'.holders.Keys == c.holders.Keys; }
  }

  /** A tensor from another worker is recorded. */
  lemma RecordedElsewhere(g: Graph, c: Coord, c': Coord, w: Worker, x: WorkerState, t: TensorId)
    requires WellFormed(g) && Consistent(g, c, w, x) && c'.sent == c.sent && c'.holders.Keys == c.holders.Keys + {t}
    requires t !in c.holders ==> forall p | p in Pipeline(x) && p in g :: t !in g[p].outputs
    ensures Consistent(g, c', w, x)
  {
    AttributedMeans(x.outbox, set n | n in JobNodes(x.running));
    DeliverableMore(g, c.holders.Keys, t, x.outbox);
    assert Known(c', x) == Known(c, x) + {t};
    if t !in c.holders {
      forall p | p in JobNodes(x.running) ensures g[p].outputs * (Known(c, x) + {t}) == g[p].outputs * x.emitted {
        assert p in Pipeline(x);
      }
      forall p | p in InboxNodes(x.inbox) ensures g[p].outputs !! Known(c, x) + {t} {
        assert p in Pipeline(x);
      }
    } else {
      assert Known(c', x) == Known(c, x);
    }
  }
}
