/** What scheduling guarantees over whole runs, and when the two cores cannot be told apart. */
module SchedulingTheorems {
  import opened Wrappers
  import opened BuddyLayout
  import opened BuddyArith
  import opened Latencies
  import opened Scheduling
  import Ref = ReferenceCore
  import Cpp = CompiledCore

  // ---------------------------------------------------------------- selection

  /** The selected worker is the first cheapest of the eligible ones. */
  lemma {:induction false} BestIsFirstCheapest(flavor: Flavor, cfg: Config, s: State, t: Task, n: nat)
    requires ConfigOk(cfg) && TaskOk(t) && StateOk(cfg, s) && n <= |cfg.ranks| && Best(flavor, cfg, s, t, n).Ok?
    ensures forall j | 0 <= j < n :: cfg.ranks[j] in cfg.hosts
    ensures var best := Best(flavor, cfg, s, t, n).value;
            && (best.None? ==> forall j | 0 <= j < n :: !Eligible(cfg, s, cfg.ranks[j]))
            && (best.Some? ==> exists i :: 0 <= i < n && IsFirstCheapest(flavor, cfg, s, t, n, i, best.value))
  {
    RanksKnown(cfg);
    if n > 0 {
      hide IsFirstCheapest, CostOf, Best, Total;
      BestStep(flavor, cfg, s, t, n - 1);
      BestIsFirstCheapest(flavor, cfg, s, t, n - 1);
      var before, best := Best(flavor, cfg, s, t, n - 1).value, Best(flavor, cfg, s, t, n).value;
      if best.Some? {
        if before.Some? {
          var i :| 0 <= i < n - 1 && IsFirstCheapest(flavor, cfg, s, t, n - 1, i, before.value);
          ThenCheapest(flavor, cfg, s, t, n, i, before.value, best.value);
        } else {
          OnlyEligible(flavor, cfg, s, t, n, best.value);
        }
      }
    } else {
      assert Best(flavor, cfg, s, t, 0) == Ok(None);
    }
  }

  lemma RanksKnown(cfg: Config)
    requires ConfigOk(cfg)
    ensures forall j | 0 <= j < |cfg.ranks| :: cfg.ranks[j] in cfg.hosts
  {
    forall j | 0 <= j < |cfg.ranks| ensures cfg.ranks[j] in cfg.hosts {
      var rank := cfg.ranks[j];
      assert rank in cfg.ranks && rank in cfg.hosts;
    }
  }

  /** One more worker: it takes over only when strictly cheaper. */
  lemma ThenCheapest(flavor: Flavor, cfg: Config, s: State, t: Task, n: nat, i: nat, before: Reservation,
                     best: Reservation)
    requires ConfigOk(cfg) && TaskOk(t) && StateOk(cfg, s) && 0 < n <= |cfg.ranks| && i < n - 1
    requires forall j | 0 <= j < n :: cfg.ranks[j] in cfg.hosts
    requires IsFirstCheapest(flavor, cfg, s, t, n - 1, i, before)
    requires var cost := CostOf(flavor, cfg, s, t, cfg.ranks[n - 1]);
             if !Eligible(cfg, s, cfg.ranks[n - 1]) then best == before
             else cost.Ok? && Some(best) == Better(Some(before), Reservation(cfg.ranks[n - 1], cost.value))
    ensures exists k :: 0 <= k < n && IsFirstCheapest(flavor, cfg, s, t, n, k, best)
  {
    hide CostOf, Total;
    if best == before {
      assert IsFirstCheapest(flavor, cfg, s, t, n, i, best);
    } else {
      assert IsFirstCheapest(flavor, cfg, s, t, n, n - 1, best);
    }
  }

  lemma OnlyEligible(flavor: Flavor, cfg: Config, s: State, t: Task, n: nat, best: Reservation)
    requires ConfigOk(cfg) && TaskOk(t) && StateOk(cfg, s) && 0 < n <= |cfg.ranks|
    requires forall j | 0 <= j < n :: cfg.ranks[j] in cfg.hosts
    requires forall j | 0 <= j < n - 1 :: !Eligible(cfg, s, cfg.ranks[j])
    requires Eligible(cfg, s, cfg.ranks[n - 1]) && best.rank == cfg.ranks[n - 1]
               && CostOf(flavor, cfg, s, t, best.rank) == Ok(best.cost)
    ensures exists k :: 0 <= k < n && IsFirstCheapest(flavor, cfg, s, t, n, k, best)
  {
    hide CostOf, Total;
    assert IsFirstCheapest(flavor, cfg, s, t, n, n - 1, best);
  }

  ghost predicate IsFirstCheapest(flavor: Flavor, cfg: Config, s: State, t: Task, n: nat, i: nat, r: Reservation)
    requires ConfigOk(cfg) && TaskOk(t) && StateOk(cfg, s) && i < n <= |cfg.ranks|
    requires forall j | 0 <= j < n :: cfg.ranks[j] in cfg.hosts
  {
    && r.rank == cfg.ranks[i] && Eligible(cfg, s, r.rank) && CostOf(flavor, cfg, s, t, r.rank) == Ok(r.cost)
    && (forall j | 0 <= j < n && Eligible(cfg, s, cfg.ranks[j]) ::
        DearerOrEqual(flavor, cfg, s, t, cfg.ranks[j], Total(r.cost)))
    && (forall j | 0 <= j < i && Eligible(cfg, s, cfg.ranks[j]) ::
        Dearer(flavor, cfg, s, t, cfg.ranks[j], Total(r.cost)))
  }

  ghost predicate DearerOrEqual(flavor: Flavor, cfg: Config, s: State, t: Task, rank: int, total: Latency)
    requires ConfigOk(cfg) && TaskOk(t) && StateOk(cfg, s) && rank in cfg.hosts
  {
    CostOf(flavor, cfg, s, t, rank).Ok? && AtMost(total, Total(CostOf(flavor, cfg, s, t, rank).value))
  }

  ghost predicate Dearer(flavor: Flavor, cfg: Config, s: State, t: Task, rank: int, total: Latency)
    requires ConfigOk(cfg) && TaskOk(t) && StateOk(cfg, s) && rank in cfg.hosts
  {
    CostOf(flavor, cfg, s, t, rank).Ok? && Less(total, Total(CostOf(flavor, cfg, s, t, rank).value))
  }

  /** The chosen worker is an eligible one of least total, and its cost is computed in the state before. */
  lemma SelectedCost(flavor: Flavor, cfg: Config, s: State, t: Task) returns (i: nat)
    requires ConfigOk(cfg) && TaskOk(t) && StateOk(cfg, s) && t.id !in s.held
    requires Select(flavor, cfg, s, t).1.Placed?
    ensures forall j | 0 <= j < |cfg.ranks| :: cfg.ranks[j] in cfg.hosts
    ensures i < |cfg.ranks|
    ensures var o := Select(flavor, cfg, s, t).1;
            && IsFirstCheapest(flavor, cfg, s, t, |cfg.ranks|, i, Reservation(o.rank, o.cost))
            && Total(o.cost).Fin?
            && Select(flavor, cfg, s, t).0 == Record(s, t.id, Reservation(o.rank, o.cost))
  {
    hide IsFirstCheapest, Best;
    BestIsFirstCheapest(flavor, cfg, s, t, |cfg.ranks|);
    var best := Best(flavor, cfg, s, t, |cfg.ranks|).value.value;
    i :| 0 <= i < |cfg.ranks| && IsFirstCheapest(flavor, cfg, s, t, |cfg.ranks|, i, best);
  }

  /** What selection compares is what the chosen worker's queue becomes: the task is placed where that is shortest. */
  lemma QueueAfterIsTotal(flavor: Flavor, cfg: Config, s: State, t: Task)
    requires ConfigOk(cfg) && TaskOk(t) && StateOk(cfg, s) && t.id !in s.held
    requires Select(flavor, cfg, s, t).1.Placed?
    ensures var (s1, o) := Select(flavor, cfg, s, t);
            && o.rank in s.queues && s1.queues == s.queues[o.rank := Total(o.cost)]
            && s1.active == s.active && s1.held == s.held[t.id := Reservation(o.rank, o.cost)]
  {
    hide Best, Total, Reserved;
    var i := SelectedCost(flavor, cfg, s, t);
    var o := Select(flavor, cfg, s, t).1;
    assert o.cost.queue == s.queues[o.rank];
    TotalAdds(o.cost);
  }

  lemma TotalAdds(c: Cost)
    ensures Total(c) == Plus(c.queue, Reserved(c))
  {
  }

  /** No part of `a` is dearer than the same part of `b`. */
  ghost predicate PartByPart(a: Cost, b: Cost) {
    && AtMost(a.queue, b.queue) && AtMost(a.transfer, b.transfer)
    && AtMost(a.loading, b.loading) && AtMost(a.execution, b.execution)
  }

  ghost predicate AllFinite(c: Cost) {
    c.queue.Fin? && c.transfer.Fin? && c.loading.Fin? && c.execution.Fin?
  }

  /**
   * A worker is never chosen while another eligible one costs no more in any part and less in one:
   * queue, transfer, loading and execution all count.
   */
  lemma DominatedNotChosen(flavor: Flavor, cfg: Config, s: State, t: Task, rank: int, better: int)
    requires ConfigOk(cfg) && TaskOk(t) && StateOk(cfg, s) && t.id !in s.held
    requires rank in cfg.hosts && better in cfg.hosts && Eligible(cfg, s, better)
    requires CostOf(flavor, cfg, s, t, rank).Ok? && CostOf(flavor, cfg, s, t, better).Ok?
    requires var a, b := CostOf(flavor, cfg, s, t, better).value, CostOf(flavor, cfg, s, t, rank).value;
             PartByPart(a, b) && a != b && AllFinite(a)
    ensures !(Select(flavor, cfg, s, t).1.Placed? && Select(flavor, cfg, s, t).1.rank == rank)
  {
    hide Select, CostOf, Total;
    DominatedIsDearer(CostOf(flavor, cfg, s, t, better).value, CostOf(flavor, cfg, s, t, rank).value);
    if Select(flavor, cfg, s, t).1.Placed? { ChosenAtMost(flavor, cfg, s, t, better); }
  }

  lemma DominatedIsDearer(a: Cost, b: Cost)
    requires PartByPart(a, b) && a != b && AllFinite(a)
    ensures Less(Total(a), Total(b))
  {
  }

  lemma ChosenAtMost(flavor: Flavor, cfg: Config, s: State, t: Task, other: int)
    requires ConfigOk(cfg) && TaskOk(t) && StateOk(cfg, s) && t.id !in s.held
    requires Select(flavor, cfg, s, t).1.Placed? && other in cfg.hosts && Eligible(cfg, s, other)
    ensures var o := Select(flavor, cfg, s, t).1;
            && o.rank in cfg.hosts && CostOf(flavor, cfg, s, t, o.rank) == Ok(o.cost)
            && CostOf(flavor, cfg, s, t, other).Ok?
            && AtMost(Total(o.cost), Total(CostOf(flavor, cfg, s, t, other).value))
  {
    hide CostOf, Total, Best, Record, Select;
    var i := SelectedCost(flavor, cfg, s, t);
    var j :| 0 <= j < |cfg.ranks| && cfg.ranks[j] == other;
    assert DearerOrEqual(flavor, cfg, s, t, cfg.ranks[j], Total(Select(flavor, cfg, s, t).1.cost));
  }

  /** Of two eligible workers that cost the same otherwise the one with the longer queue is never chosen. */
  lemma LongerQueueNotChosen(flavor: Flavor, cfg: Config, s: State, t: Task, rank: int, better: int)
    requires ConfigOk(cfg) && TaskOk(t) && StateOk(cfg, s) && t.id !in s.held
    requires rank in cfg.hosts && better in cfg.hosts && Eligible(cfg, s, better)
    requires CostOf(flavor, cfg, s, t, rank).Ok? && CostOf(flavor, cfg, s, t, better).Ok?
    requires var a, b := CostOf(flavor, cfg, s, t, better).value, CostOf(flavor, cfg, s, t, rank).value;
             && a.transfer == b.transfer && a.loading == b.loading && a.execution == b.execution
             && a.transfer.Fin? && a.loading.Fin? && a.execution.Fin?
    requires Less(s.queues[better], s.queues[rank])
    ensures !(Select(flavor, cfg, s, t).1.Placed? && Select(flavor, cfg, s, t).1.rank == rank)
  {
    hide Select, Best;
    DominatedNotChosen(flavor, cfg, s, t, rank, better);
  }

  /**
   * Nobody is chosen exactly when every worker has a queue beyond the threshold or some part of its
   * cost is infinite.
   */
  lemma NobodyChosen(flavor: Flavor, cfg: Config, s: State, t: Task)
    requires ConfigOk(cfg) && TaskOk(t) && StateOk(cfg, s) && t.id !in s.held
    requires forall rank | rank in cfg.hosts :: CostOf(flavor, cfg, s, t, rank).Ok?
    ensures Select(flavor, cfg, s, t).1 == NoWorker <==>
            forall rank | rank in cfg.hosts ::
              Less(cfg.threshold, s.queues[rank]) || !AllFinite(CostOf(flavor, cfg, s, t, rank).value)
  {
    hide CostOf, Best;
    BestSucceeds(flavor, cfg, s, t, |cfg.ranks|);
    BestIsFirstCheapest(flavor, cfg, s, t, |cfg.ranks|);
    var best := Best(flavor, cfg, s, t, |cfg.ranks|).value;
    if best.Some? && Total(best.value.cost).Fin? {
      assert Eligible(cfg, s, best.value.rank) && best.value.rank in cfg.hosts;
    } else {
      forall rank | rank in cfg.hosts
        ensures Less(cfg.threshold, s.queues[rank]) || !AllFinite(CostOf(flavor, cfg, s, t, rank).value)
      {
        var j :| 0 <= j < |cfg.ranks| && cfg.ranks[j] == rank;
        if best.Some? && Eligible(cfg, s, cfg.ranks[j]) {
          assert DearerOrEqual(flavor, cfg, s, t, cfg.ranks[j], Total(best.value.cost));
        }
      }
    }
  }

  lemma {:induction false} BestSucceeds(flavor: Flavor, cfg: Config, s: State, t: Task, n: nat)
    requires ConfigOk(cfg) && TaskOk(t) && StateOk(cfg, s) && n <= |cfg.ranks|
    requires forall rank | rank in cfg.hosts :: CostOf(flavor, cfg, s, t, rank).Ok?
    ensures Best(flavor, cfg, s, t, n).Ok?
  {
    if n > 0 {
      hide CostOf;
      BestSucceeds(flavor, cfg, s, t, n - 1);
      BestStep(flavor, cfg, s, t, n - 1);
    }
  }

  /** Every part counts once: what one of them grows by, the total grows by. */
  lemma EachPartCounts(c: Cost, d: Latency)
    ensures Total(c.(queue := Plus(c.queue, d))) == Plus(Total(c), d)
    ensures Total(c.(transfer := Plus(c.transfer, d))) == Plus(Total(c), d)
    ensures Total(c.(loading := Plus(c.loading, d))) == Plus(Total(c), d)
    ensures Total(c.(execution := Plus(c.execution, d))) == Plus(Total(c), d)
    ensures Total(Cost(ZERO, ZERO, ZERO, ZERO)) == ZERO
  {
  }

  /** A task whose model has no profile is placed nowhere, however idle the workers are. */
  lemma UnprofiledModelGoesNowhere(flavor: Flavor, cfg: Config, s: State, t: Task)
    requires ConfigOk(cfg) && TaskOk(t) && StateOk(cfg, s) && t.id !in s.held
    requires t.usesProfile && t.model !in cfg.profiles
    ensures Select(flavor, cfg, s, t) == (s, NoWorker)
  {
    hide Best, TransferLatency;
    NobodyChosen(flavor, cfg, s, t);
    BestSucceeds(flavor, cfg, s, t, |cfg.ranks|);
  }

  /** A task that needs neither data nor a model goes to a shortest queue, and leaves it as long as it was. */
  lemma FreeTaskTakesShortestQueue(flavor: Flavor, cfg: Config, s: State, t: Task)
    requires ConfigOk(cfg) && TaskOk(t) && StateOk(cfg, s) && t.id !in s.held && !t.usesProfile && |t.offsets| == 1
    requires Select(flavor, cfg, s, t).1.Placed?
    ensures var (s1, o) := Select(flavor, cfg, s, t);
            && o.rank in s.queues && s1.queues == s.queues
            && forall r | r in cfg.hosts :: AtMost(s.queues[o.rank], s.queues[r])
  {
    hide Best;
    QueueAfterIsTotal(flavor, cfg, s, t);
    var o := Select(flavor, cfg, s, t).1;
    var i := SelectedCost(flavor, cfg, s, t);
    assert o.cost == Cost(s.queues[o.rank], ZERO, ZERO, ZERO);
    forall r | r in cfg.hosts ensures AtMost(s.queues[o.rank], s.queues[r]) {
      if Eligible(cfg, s, r) { ChosenAtMost(flavor, cfg, s, t, r); }
    }
  }

  // ---------------------------------------------------------------- transfers

  /** What fetching each tensor costs a worker. */
  ghost function TensorLatencies(cfg: Config, t: Task, n: nat, rank: int): map<int, Latency>
    requires ConfigOk(cfg) && TaskOk(t) && n < |t.offsets| && rank in cfg.hosts
  {
    map i | 0 <= i < n :: TensorLatency(cfg, t, i, rank)
  }

  /** Tensors are fetched one after another, in whatever order. */
  lemma {:induction false} TransfersAddUp(cfg: Config, t: Task, n: nat, rank: int)
    requires ConfigOk(cfg) && TaskOk(t) && n < |t.offsets| && rank in cfg.hosts
    ensures var each := TensorLatencies(cfg, t, n, rank);
            TransferLatency(cfg, t, n, rank) == SumOver(each.Keys, each)
  {
    hide TensorLatency;
    var each := TensorLatencies(cfg, t, n, rank);
    if n == 0 {
      assert each == map[];
      SumNothing(each);
    } else {
      var before := TensorLatencies(cfg, t, n - 1, rank);
      TransfersAddUp(cfg, t, n - 1, rank);
      assert each.Keys - {n - 1} == before.Keys;
      SumSplit(each.Keys, each, n - 1);
      SumSame(before.Keys, before, each);
    }
  }

  /**
   * A tensor with a source on the worker's host costs the same under any profile of transfers between
   * hosts, and one without under any profile of transfers within a host.
   */
  lemma HostDecidesProfile(cfg: Config, t: Task, i: nat, rank: int, other: TransferProfile)
    requires ConfigOk(cfg) && TaskOk(t) && i + 1 < |t.offsets| && rank in cfg.hosts && ProfileOk(other)
    ensures var near := exists j :: t.offsets[i] <= j < t.offsets[i + 1] && t.hosts[j] == cfg.hosts[rank];
            TensorLatency(cfg, t, i, rank)
            == TensorLatency(if near then cfg.(inter := other) else cfg.(intra := other), t, i, rank)
  {
    hide TransferLookup;
  }

  /** A tensor costs nothing where it lies: without sources, or when the source taken is the worker itself. */
  lemma LocalIsFree(cfg: Config, t: Task, i: nat, rank: int)
    requires ConfigOk(cfg) && TaskOk(t) && i + 1 < |t.offsets| && rank in cfg.hosts
    requires forall j | t.offsets[i] <= j < t.offsets[i + 1] :: t.ranks[j] == rank
    ensures TensorLatency(cfg, t, i, rank) == ZERO
  {
  }

  /** Profiles are in microseconds. */
  lemma MillionthOfProfile(p: TransferProfile, size: int)
    requires ProfileOk(p) && p.sizes != [] && forall i | 0 <= i < |p.sizes| :: p.overheads[i].Fin?
    ensures var l := TransferLookup(p, size);
            && l.Fin?
            && exists i :: 0 <= i < |p.sizes| && p.overheads[i] == Fin(1000000.0 * l.r)
                           && (p.sizes[i] >= size || i == |p.sizes| - 1) && forall j | 0 <= j < i :: p.sizes[j] < size
  {
  }

  // ---------------------------------------------------------------- active models

  /**
   * Reporting the models that a worker has loaded decides what it charges for loading, and changes
   * nothing for other workers, queues and reservations.
   */
  lemma ActiveDecidesLoading(flavor: Flavor, cfg: Config, s: State, rank: int, models: set<string>, t: Task, r: int)
    requires ConfigOk(cfg) && TaskOk(t) && StateOk(cfg, s) && rank in cfg.hosts && r in cfg.hosts
    ensures var (s1, o) := UpdateActive(cfg, s, rank, models);
            && o == Updated && StateOk(cfg, s1) && s1.queues == s.queues && s1.held == s.held
            && (r != rank ==> CostOf(flavor, cfg, s1, t, r) == CostOf(flavor, cfg, s, t, r))
            && (t.usesProfile && t.model in cfg.profiles && CostOf(flavor, cfg, s1, t, rank).Ok? ==>
                  CostOf(flavor, cfg, s1, t, rank).value.loading
                  == if t.model in models then ZERO else cfg.profiles[t.model].loading)
    ensures var s1 := UpdateActive(cfg, s, rank, models).0;
            CostOf(flavor, cfg, s1, t, rank).Ok? <==> CostOf(flavor, cfg, s, t, rank).Ok?
    ensures var s1 := UpdateActive(cfg, s, rank, models).0;
            CostOf(flavor, cfg, s, t, rank).Ok? ==>
              CostOf(flavor, cfg, s1, t, rank).value
              == CostOf(flavor, cfg, s, t, rank).value.(loading := CostOf(flavor, cfg, s1, t, rank).value.loading)
  {
    hide TransferLatency, ExecutionLatency;
  }

  /** The models a worker has loaded when the core is made are not charged for. */
  lemma FirstModelsDecideLoading(flavor: Flavor, cfg: Config, active: map<int, set<string>>, t: Task, rank: int)
    requires ConfigOk(cfg) && TaskOk(t) && rank in cfg.hosts && t.usesProfile && t.model in cfg.profiles
    ensures var s := Init(cfg, active);
            && StateOk(cfg, s)
            && (CostOf(flavor, cfg, s, t, rank).Ok? ==>
                  && CostOf(flavor, cfg, s, t, rank).value.queue == ZERO
                  && CostOf(flavor, cfg, s, t, rank).value.loading
                     == if rank in active && t.model in active[rank] then ZERO else cfg.profiles[t.model].loading)
  {
    hide TransferLatency, ExecutionLatency;
  }

  /** A report about an unknown worker is refused and changes nothing. */
  lemma UnknownWorkerRefused(cfg: Config, s: State, rank: int, models: set<string>)
    requires StateOk(cfg, s) && rank !in cfg.hosts
    ensures UpdateActive(cfg, s, rank, models) == (s, Refused(UnknownWorker))
  {
  }

  /** Selecting or reserving again for a task that holds a reservation changes nothing and answers the same. */
  lemma RetriesAreIdempotent(flavor: Flavor, cfg: Config, s: State, t: Task)
    requires ConfigOk(cfg) && TaskOk(t) && StateOk(cfg, s)
    ensures var (s1, o) := Select(flavor, cfg, s, t);
            StateOk(cfg, s1) && (o.Placed? ==>
                                 Select(flavor, cfg, s1, t) == (s1, o)
                                   && ReserveOn(flavor, cfg, s1, t, o.rank) == (s1, o))
  {
  }

  // ---------------------------------------------------------------- conservation

  /** Each queue is the sum of the worker's live reservations, infinity absorbing. */
  ghost predicate Conserved(cfg: Config, s: State) {
    && StateOk(cfg, s)
    && (forall id | id in s.held :: NonNegative(Reserved(s.held[id].cost)))
    && forall r | r in s.queues :: s.queues[r] == QueueOf(s.held, r)
  }

  lemma InitConserved(cfg: Config, active: map<int, set<string>>)
    requires ConfigOk(cfg)
    ensures Conserved(cfg, Init(cfg, active))
  {
    forall r | r in cfg.hosts ensures QueueOf(map[], r) == ZERO {
      assert HeldBy(map[], r) == {};
    }
  }

  lemma TensorNonNegative(cfg: Config, t: Task, k: nat, rank: int)
    requires ConfigOk(cfg) && TaskOk(t) && k + 1 < |t.offsets| && rank in cfg.hosts && CostsNonNegative(cfg)
    ensures NonNegative(TensorLatency(cfg, t, k, rank))
  {
  }

  lemma {:induction false} TransferNonNegative(cfg: Config, t: Task, n: nat, rank: int)
    requires ConfigOk(cfg) && TaskOk(t) && n < |t.offsets| && rank in cfg.hosts && CostsNonNegative(cfg)
    ensures NonNegative(TransferLatency(cfg, t, n, rank))
  {
    hide TensorLatency, CostsNonNegative, ConfigOk, TaskOk;
    if n > 0 {
      TransferNonNegative(cfg, t, n - 1, rank);
      TensorNonNegative(cfg, t, n - 1, rank);
    }
  }

  lemma NearestNonNegative(table: Table, mode: string, batch: int, height: int, width: int)
    requires forall k | k in table :: NonNegative(table[k])
    ensures NonNegative(Nearest(table, mode, batch, height, width))
  {
  }

  lemma CostNonNegative(flavor: Flavor, cfg: Config, s: State, t: Task, rank: int)
    requires ConfigOk(cfg) && TaskOk(t) && StateOk(cfg, s) && rank in cfg.hosts && CostsNonNegative(cfg)
    ensures CostOf(flavor, cfg, s, t, rank).Ok? ==> NonNegative(Reserved(CostOf(flavor, cfg, s, t, rank).value))
  {
    TransferNonNegative(cfg, t, |t.offsets| - 1, rank);
    if t.usesProfile && t.model in cfg.profiles && Adjusted(flavor, t.batch).Ok? {
      NearestNonNegative(cfg.profiles[t.model].table, t.mode, Adjusted(flavor, t.batch).value, t.height, t.width);
    }
  }

  /** Recording a reservation adds it to one queue. */
  lemma RecordConserved(cfg: Config, s: State, id: string, r: Reservation)
    requires Conserved(cfg, s) && id !in s.held && r.rank in cfg.hosts && NonNegative(Reserved(r.cost))
    ensures Conserved(cfg, Record(s, id, r))
  {
    var s' := Record(s, id, r);
    forall rank | rank in s'.queues ensures s'.queues[rank] == QueueOf(s'.held, rank) {
      QueueWith(s.held, id, r, rank);
    }
  }

  /** One reservation more in a worker's queue. */
  lemma QueueWith(held: map<string, Reservation>, id: string, r: Reservation, rank: int)
    requires id !in held
    ensures QueueOf(held[id := r], rank)
              == if r.rank == rank then Plus(QueueOf(held, rank), Reserved(r.cost)) else QueueOf(held, rank)
  {
    var held' := held[id := r];
    SumSame(HeldBy(held, rank), Latencies_(held), Latencies_(held'));
    if r.rank == rank {
      assert HeldBy(held', rank) - {id} == HeldBy(held, rank);
      SumSplit(HeldBy(held', rank), Latencies_(held'), id);
    } else {
      assert HeldBy(held', rank) == HeldBy(held, rank);
    }
  }

  lemma QueueNonNegative(held: map<string, Reservation>, rank: int)
    requires forall id | id in held :: NonNegative(Reserved(held[id].cost))
    ensures NonNegative(QueueOf(held, rank))
  {
    SumNonNegative(HeldBy(held, rank), Latencies_(held));
  }

  /** Completing a task takes its reservation out of one queue; the clamp at zero never acts. */
  lemma CompleteConserved(cfg: Config, s: State, id: string)
    requires Conserved(cfg, s)
    ensures Conserved(cfg, Complete(cfg, s, id).0)
  {
    if id in s.held {
      var r, rest, s' := s.held[id], s.held - {id}, Complete(cfg, s, id).0;
      assert rest[id := r] == s.held;
      forall rank | rank in s'.queues ensures s'.queues[rank] == QueueOf(rest, rank) {
        QueueWith(rest, id, r, rank);
        QueueNonNegative(rest, rank);
      }
    }
  }

  lemma ApplyConserved(flavor: Flavor, cfg: Config, s: State, op: Op)
    requires ConfigOk(cfg) && CostsNonNegative(cfg) && Conserved(cfg, s) && OpOk(op)
    ensures Conserved(cfg, Apply(flavor, cfg, s, op).0)
  {
    match op
    case SelectOp(t) =>
      var best := Best(flavor, cfg, s, t, |cfg.ranks|);
      if t.id !in s.held && best.Ok? && best.value.Some? && Total(best.value.value.cost).Fin? {
        BestIsFirstCheapest(flavor, cfg, s, t, |cfg.ranks|);
        CostNonNegative(flavor, cfg, s, t, best.value.value.rank);
        RecordConserved(cfg, s, t.id, best.value.value);
      }
    case ReserveOp(t, rank) =>
      if t.id !in s.held && rank in cfg.hosts && CostOf(flavor, cfg, s, t, rank).Ok? {
        CostNonNegative(flavor, cfg, s, t, rank);
        RecordConserved(cfg, s, t.id, Reservation(rank, CostOf(flavor, cfg, s, t, rank).value));
      }
    case CompleteOp(id) => CompleteConserved(cfg, s, id);
    case ActiveOp(rank, models) =>
  }

  /** After any run every queue is the sum of its live reservations; with none left, all queues are zero. */
  lemma {:induction false} RunConserved(flavor: Flavor, cfg: Config, s: State, ops: seq<Op>)
    requires ConfigOk(cfg) && CostsNonNegative(cfg) && Conserved(cfg, s) && forall i | 0 <= i < |ops| :: OpOk(ops[i])
    ensures Conserved(cfg, RunOps(flavor, cfg, s, ops).0)
    ensures RunOps(flavor, cfg, s, ops).0.held == map[] ==>
              forall r | r in cfg.hosts :: r in RunOps(flavor, cfg, s, ops).0.queues
                  && RunOps(flavor, cfg, s, ops).0.queues[r] == ZERO
    decreases |ops|
  {
    hide Conserved, Apply;
    if ops == [] {
      EmptyQueues(cfg, s);
    } else {
      ConservedIsOk(cfg, s);
      ApplyConserved(flavor, cfg, s, ops[0]);
      ConservedIsOk(cfg, Apply(flavor, cfg, s, ops[0]).0);
      RunConserved(flavor, cfg, Apply(flavor, cfg, s, ops[0]).0, ops[1..]);
    }
  }

  lemma ConservedIsOk(cfg: Config, s: State)
    requires Conserved(cfg, s)
    ensures StateOk(cfg, s)
  {
  }

  lemma EmptyQueues(cfg: Config, s: State)
    requires Conserved(cfg, s)
    ensures s.held == map[] ==> forall r | r in cfg.hosts :: r in s.queues && s.queues[r] == ZERO
  {
    if s.held == map[] {
      forall r | r in cfg.hosts ensures s.queues[r] == ZERO {
        assert HeldBy(s.held, r) == {};
      }
    }
  }

  /** Completing what was just reserved restores the state before, infinite reservations included. */
  lemma CompleteUndoesReserve(flavor: Flavor, cfg: Config, s: State, t: Task, rank: int)
    requires ConfigOk(cfg) && CostsNonNegative(cfg) && Conserved(cfg, s) && TaskOk(t) && t.id !in s.held
    requires ReserveOn(flavor, cfg, s, t, rank).1.Placed?
    ensures StateOk(cfg, ReserveOn(flavor, cfg, s, t, rank).0)
    ensures Complete(cfg, ReserveOn(flavor, cfg, s, t, rank).0, t.id) == (s, Completed(true))
  {
    var r := Reservation(rank, CostOf(flavor, cfg, s, t, rank).value);
    CostNonNegative(flavor, cfg, s, t, rank);
    CompleteUndoesRecord(cfg, s, t.id, r);
  }

  lemma CompleteUndoesRecord(cfg: Config, s: State, id: string, r: Reservation)
    requires Conserved(cfg, s) && id !in s.held && r.rank in cfg.hosts && NonNegative(Reserved(r.cost))
    ensures StateOk(cfg, Record(s, id, r)) && Complete(cfg, Record(s, id, r), id) == (s, Completed(true))
  {
    var s1 := Record(s, id, r);
    assert s1.held - {id} == s.held;
    QueueNonNegative(s.held, r.rank);
    assert s.queues == s1.queues[r.rank := s.queues[r.rank]];
  }

  // ---------------------------------------------------------------- the two cores

  /** Profiles as the profiler writes them: every entry has a shape. */
  ghost predicate Shaped(cfg: Config) {
    forall m, k | m in cfg.profiles && k in cfg.profiles[m].table :: k.height > 0 && k.width > 0
  }

  predicate Modest(op: Op) {
    (op.SelectOp? || op.ReserveOp?) ==> op.t.batch <= Pow2(62)
  }

  lemma SameCost(cfg: Config, s: State, t: Task, rank: int)
    requires ConfigOk(cfg) && TaskOk(t) && StateOk(cfg, s) && rank in cfg.hosts && Shaped(cfg) && t.batch <= Pow2(62)
    ensures CostOf(Reference, cfg, s, t, rank) == CostOf(Compiled, cfg, s, t, rank)
  {
    if t.usesProfile && t.model in cfg.profiles {
      LookupsAgreeExactly(cfg.profiles[t.model].table, t.mode, t.batch, t.height, t.width);
    }
  }

  lemma {:induction false} SameBest(cfg: Config, s: State, t: Task, n: nat)
    requires ConfigOk(cfg) && TaskOk(t) && StateOk(cfg, s) && n <= |cfg.ranks| && Shaped(cfg) && t.batch <= Pow2(62)
    ensures Best(Reference, cfg, s, t, n) == Best(Compiled, cfg, s, t, n)
  {
    if n > 0 {
      SameBest(cfg, s, t, n - 1);
      BestStep(Reference, cfg, s, t, n - 1);
      SameCost(cfg, s, t, cfg.ranks[n - 1]);
    }
  }

  lemma SameStep(cfg: Config, s: State, op: Op)
    requires ConfigOk(cfg) && StateOk(cfg, s) && OpOk(op) && Shaped(cfg) && Modest(op)
    ensures Apply(Reference, cfg, s, op) == Apply(Compiled, cfg, s, op)
  {
    match op
    case SelectOp(t) => SameBest(cfg, s, t, |cfg.ranks|);
    case ReserveOp(t, rank) => if rank in cfg.hosts { SameCost(cfg, s, t, rank); }
    case CompleteOp(_) =>
    case ActiveOp(_, _) =>
  }

  /** With shaped profiles, every sequence of calls returns the same workers and costs from both cores. */
  lemma {:induction false} CoresAgree(cfg: Config, s: State, ops: seq<Op>)
    requires ConfigOk(cfg) && StateOk(cfg, s) && Shaped(cfg)
               && forall i | 0 <= i < |ops| :: OpOk(ops[i]) && Modest(ops[i])
    ensures RunOps(Reference, cfg, s, ops) == RunOps(Compiled, cfg, s, ops)
    decreases |ops|
  {
    if ops != [] {
      SameStep(cfg, s, ops[0]);
      ApplyOk(Reference, cfg, s, ops[0]);
      CoresAgree(cfg, Apply(Reference, cfg, s, ops[0]).0, ops[1..]);
    }
  }

  // ---------------------------------------------------------------- running the cores

  method CallReference(core: Ref.Core, op: Op) returns (o: Outcome)
    requires core.Valid() && OpOk(op)
    modifies core
    ensures core.Valid() && (core.S(), o) == Apply(Reference, core.cfg, old(core.S()), op)
  {
    match op
    case SelectOp(t) => o := core.SelectAndReserve(t);
    case ReserveOp(t, rank) => o := core.ReserveOnWorker(t, rank);
    case CompleteOp(id) => o := core.Complete(id);
    case ActiveOp(rank, models) => o := core.UpdateActiveModels(rank, models);
  }

  method CallCompiled(core: Cpp.Core, op: Op) returns (o: Outcome)
    requires core.Valid() && StateOk(core.cfg, core.S()) && OpOk(op)
    modifies core, core.queues, core.active
    ensures core.Valid() && (core.S(), o) == Apply(Compiled, core.cfg, old(core.S()), op)
  {
    match op
    case SelectOp(t) => o := core.SelectAndReserve(t);
    case ReserveOp(t, rank) => o := core.ReserveOnWorker(t, rank);
    case CompleteOp(id) => o := core.Complete(id);
    case ActiveOp(rank, models) => o := core.UpdateActiveModels(rank, models);
  }

  /** The compiled core simulates the reference: from equal states, in lockstep, forever equal answers and states. */
  method Lockstep(reference: Ref.Core, compiled: Cpp.Core, ops: seq<Op>) returns (os: seq<Outcome>, os': seq<Outcome>)
    requires reference.Valid() && compiled.Valid() && compiled.cfg == reference.cfg && compiled.S() == reference.S()
    requires Shaped(reference.cfg) && forall i | 0 <= i < |ops| :: OpOk(ops[i]) && Modest(ops[i])
    modifies reference, compiled, compiled.queues, compiled.active
    ensures os == os' && |os| == |ops|
    ensures reference.Valid() && compiled.Valid() && compiled.S() == reference.S()
  {
    hide Apply;
    os, os' := [], [];
    for i := 0 to |ops|
      invariant reference.Valid() && compiled.Valid() && compiled.S() == reference.S()
      invariant os == os' && |os| == i
    {
      SameStep(reference.cfg, reference.S(), ops[i]);
      var o := CallReference(reference, ops[i]);
      var o' := CallCompiled(compiled, ops[i]);
      os, os' := os + [o], os' + [o'];
    }
  }
}
