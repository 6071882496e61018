/** The reference scheduling core: tables keyed by worker rank. */
module ReferenceCore {
  import opened Wrappers
  import opened Latencies
  import opened Scheduling

  class Core {
    const cfg: Config
    var queues: map<int, Latency>
    var active: map<int, set<string>>
    var held: map<string, Reservation>

    ghost predicate Valid()
      reads this
    {
      ConfigOk(cfg) && StateOk(cfg, S())
    }

    function S(): State
      reads this
    {
      State(queues, active, held)
    }

    constructor (cfg: Config, active: map<int, set<string>>)
      requires ConfigOk(cfg)
      ensures Valid() && this.cfg == cfg && S() == Init(cfg, active)
    {
      this.cfg := cfg;
      queues := map r | r in cfg.hosts :: ZERO;
      this.active := map r | r in cfg.hosts :: if r in active then active[r] else {};
      held := map[];
    }

    /** _cost */
    method CostFor(t: Task, rank: int) returns (cost: Result<Cost, Error>)
      requires Valid() && TaskOk(t) && rank in cfg.hosts
      ensures cost == CostOf(Reference, cfg, S(), t, rank)
    {
      var transfer := ComputeTransfer(cfg, t, rank);
      if !t.usesProfile { return Ok(Cost(queues[rank], transfer, ZERO, ZERO)); }
      if t.model !in cfg.profiles { return Ok(Cost(queues[rank], transfer, Inf, Inf)); }
      var loading := ZERO;
      if t.model !in active[rank] {
        loading := cfg.profiles[t.model].loading;
      }
      var execution := LookupReference(cfg.profiles[t.model].table, t.mode, t.batch, t.height, t.width);
      if execution.Err? { return Err(BadBatch(execution.error)); }
      return Ok(Cost(queues[rank], transfer, loading, execution.value));
    }

    /** The first cheapest eligible worker, scanning in rank order of configuration. */
    method FindBest(t: Task) returns (best: Result<Option<Reservation>, Error>)
      requires Valid() && TaskOk(t)
      ensures best == Best(Reference, cfg, S(), t, |cfg.ranks|)
    {
      hide CostOf;
      var found: Option<Reservation> := None;
      for i := 0 to |cfg.ranks|
        invariant Best(Reference, cfg, S(), t, i) == Ok(found)
      {
        var rank := cfg.ranks[i];
        assert rank in cfg.ranks;
        if Less(cfg.threshold, queues[rank]) { continue; }
        var cost := CostFor(t, rank);
        if cost.Err? {
          BestFails(Reference, cfg, S(), t, i + 1, |cfg.ranks|);
          return Err(cost.error);
        }
        if found.None? || Less(Total(cost.value), Total(found.value.cost)) {
          found := Some(Reservation(rank, cost.value));
        }
      }
      return Ok(found);
    }

    /** _record_reservation */
    method RecordReservation(id: string, r: Reservation)
      requires Valid() && r.rank in cfg.hosts
      modifies this`held, this`queues
      ensures Valid() && S() == Record(old(S()), id, r)
    {
      held := held[id := r];
      queues := queues[r.rank := Plus(queues[r.rank], Reserved(r.cost))];
    }

    method SelectAndReserve(t: Task) returns (o: Outcome)
      requires Valid() && TaskOk(t)
      modifies this
      ensures Valid() && (S(), o) == Select(Reference, cfg, old(S()), t)
    {
      hide Best;
      if t.id in held { return Placed(held[t.id].rank, held[t.id].cost); }
      var best := FindBest(t);
      if best.Err? { return Refused(best.error); }
      if best.value.None? || Total(best.value.value.cost).Inf? { return NoWorker; }
      RecordReservation(t.id, best.value.value);
      return Placed(best.value.value.rank, best.value.value.cost);
    }

    method ReserveOnWorker(t: Task, rank: int) returns (o: Outcome)
      requires Valid() && TaskOk(t)
      modifies this
      ensures Valid() && (S(), o) == ReserveOn(Reference, cfg, old(S()), t, rank)
    {
      hide CostOf;
      if rank !in cfg.hosts { return Refused(UnknownWorker); }
      if t.id in held {
        if held[t.id].rank != rank { return Refused(HeldElsewhere); }
        return Placed(rank, held[t.id].cost);
      }
      var cost := CostFor(t, rank);
      if cost.Err? { return Refused(cost.error); }
      RecordReservation(t.id, Reservation(rank, cost.value));
      return Placed(rank, cost.value);
    }

    /** The queue of a worker, added up from its reservations. */
    method AddUp(rank: int) returns (queue: Latency)
      ensures queue == QueueOf(held, rank)
    {
      hide SumSeen;
      queue := ZERO;
      var ids := held.Keys;
      ghost var seen: set<string> := {};
      AddNone(held, rank);
      while ids != {}
        invariant ids + seen == held.Keys && ids !! seen
        invariant queue == SumSeen(held, rank, seen)
        decreases |ids|
      {
        var id :| id in ids;
        AddMore(held, rank, seen, id);
        if held[id].rank == rank {
          queue := Plus(queue, Reserved(held[id].cost));
        }
        ids, seen := ids - {id}, seen + {id};
      }
      AddAll(held, rank, seen);
    }

    method Complete(id: string) returns (o: Outcome)
      requires Valid()
      modifies this`held, this`queues
      ensures Valid() && (S(), o) == Scheduling.Complete(cfg, old(S()), id)
    {
      if id !in held { return Completed(false); }
      var rank, latency := held[id].rank, Reserved(held[id].cost);
      held := held - {id};
      if latency.Inf? {
        var queue := AddUp(rank);
        queues := queues[rank := queue];
      } else {
        queues := queues[rank := Max(ZERO, Minus(queues[rank], latency))];
      }
      return Completed(true);
    }

    method UpdateActiveModels(rank: int, models: set<string>) returns (o: Outcome)
      requires Valid()
      modifies this`active
      ensures Valid() && (S(), o) == UpdateActive(cfg, old(S()), rank, models)
    {
      if rank !in active { return Refused(UnknownWorker); }
      active := active[rank := models];
      return Updated;
    }
  }
}
