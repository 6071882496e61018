/** The compiled scheduling core: arrays indexed by position, reservations by index. */
module CompiledCore {
  import opened Wrappers
  import opened Latencies
  import opened Scheduling

  datatype Indexed = Indexed(index: nat, cost: Cost)

  /** `indexes` locates each rank in the configuration. */
  ghost predicate Shaped(cfg: Config, indexes: map<int, nat>) {
    && ConfigOk(cfg) && indexes.Keys == cfg.hosts.Keys
    && (forall r | r in indexes :: indexes[r] < |cfg.ranks| && cfg.ranks[indexes[r]] == r)
    && (forall i | 0 <= i < |cfg.ranks| :: cfg.ranks[i] in indexes && indexes[cfg.ranks[i]] == i)
  }

  ghost predicate InRange(cfg: Config, reservations: map<string, Indexed>) {
    forall id | id in reservations :: reservations[id].index < |cfg.ranks|
  }

  ghost function ByRank<T>(cfg: Config, indexes: map<int, nat>, values: seq<T>): map<int, T>
    requires Shaped(cfg, indexes) && |values| == |cfg.ranks|
  {
    map r | r in indexes :: values[indexes[r]]
  }

  ghost function ReservedByRank(cfg: Config, reservations: map<string, Indexed>): map<string, Reservation>
    requires InRange(cfg, reservations)
  {
    map id | id in reservations :: Reservation(cfg.ranks[reservations[id].index], reservations[id].cost)
  }

  /** Writing one slot changes the value of one rank. */
  lemma SlotWritten<T>(cfg: Config, indexes: map<int, nat>, values: seq<T>, i: nat, v: T)
    requires Shaped(cfg, indexes) && |values| == |cfg.ranks| && i < |values|
    ensures ByRank(cfg, indexes, values[i := v]) == ByRank(cfg, indexes, values)[cfg.ranks[i] := v]
    ensures cfg.ranks[i] in cfg.hosts && ByRank(cfg, indexes, values)[cfg.ranks[i]] == values[i]
  {
    var before, after := ByRank(cfg, indexes, values), ByRank(cfg, indexes, values[i := v]);
    assert cfg.ranks[i] in indexes;
    assert after.Keys == before[cfg.ranks[i] := v].Keys;
    forall r | r in after ensures after[r] == before[cfg.ranks[i] := v][r] {}
  }

  lemma StateIsOk(cfg: Config, indexes: map<int, nat>, queues: seq<Latency>, active: seq<set<string>>,
                  reservations: map<string, Indexed>)
    requires Shaped(cfg, indexes) && |queues| == |active| == |cfg.ranks| && InRange(cfg, reservations)
    ensures StateOk(cfg, State(ByRank(cfg, indexes, queues), ByRank(cfg, indexes, active),
                               ReservedByRank(cfg, reservations)))
  {
    forall id | id in reservations ensures cfg.ranks[reservations[id].index] in cfg.hosts {
      assert cfg.ranks[reservations[id].index] in indexes;
    }
  }

  lemma ReservationWritten(cfg: Config, reservations: map<string, Indexed>, id: string, r: Indexed)
    requires InRange(cfg, reservations) && r.index < |cfg.ranks|
    ensures ReservedByRank(cfg, reservations[id := r])
              == ReservedByRank(cfg, reservations)[id := Reservation(cfg.ranks[r.index], r.cost)]
  {
  }

  lemma ReservationDropped(cfg: Config, reservations: map<string, Indexed>, id: string)
    requires InRange(cfg, reservations)
    ensures ReservedByRank(cfg, reservations - {id}) == ReservedByRank(cfg, reservations) - {id}
  {
  }

  method IndexRanks(cfg: Config) returns (indexes: map<int, nat>)
    requires ConfigOk(cfg)
    ensures Shaped(cfg, indexes)
  {
    indexes := map[];
    for i := 0 to |cfg.ranks|
      invariant forall r | r in indexes :: indexes[r] < i && cfg.ranks[indexes[r]] == r
      invariant forall k | 0 <= k < i :: cfg.ranks[k] in indexes && indexes[cfg.ranks[k]] == k
    {
      indexes := indexes[cfg.ranks[i] := i];
    }
    forall r ensures r in indexes <==> r in cfg.hosts {
      if r in cfg.hosts { assert r in cfg.ranks; }
      if r in indexes { assert cfg.ranks[indexes[r]] in cfg.ranks; }
    }
  }

  lemma InitByRank(cfg: Config, indexes: map<int, nat>, queues: seq<Latency>, actives: seq<set<string>>,
                   active: map<int, set<string>>)
    requires Shaped(cfg, indexes) && |queues| == |actives| == |cfg.ranks|
    requires forall i | 0 <= i < |queues| :: queues[i] == ZERO
    requires forall i | 0 <= i < |queues| :: actives[i] == if cfg.ranks[i] in active then active[cfg.ranks[i]] else {}
    ensures ByRank(cfg, indexes, queues) == Init(cfg, active).queues
    ensures ByRank(cfg, indexes, actives) == Init(cfg, active).active
  {
    forall r | r in indexes
      ensures ByRank(cfg, indexes, queues)[r] == Init(cfg, active).queues[r]
                && ByRank(cfg, indexes, actives)[r] == Init(cfg, active).active[r]
    {
      assert cfg.ranks[indexes[r]] == r;
    }
  }

  /** The queue of a worker, added up from its reservations. */
  method AddUp(cfg: Config, reservations: map<string, Indexed>, index: nat) returns (queue: Latency)
    requires ConfigOk(cfg) && InRange(cfg, reservations) && index < |cfg.ranks|
    ensures queue == QueueOf(ReservedByRank(cfg, reservations), cfg.ranks[index])
  {
    hide SumSeen, QueueOf, ConfigOk, ReservedByRank;
    queue := ZERO;
    var ids := reservations.Keys;
    ghost var seen: set<string>, held, rank := {}, ReservedByRank(cfg, reservations), cfg.ranks[index];
    SameReservations(cfg, reservations, index);
    AddNone(held, rank);
    while ids != {}
      invariant ids + seen == held.Keys && ids !! seen
      invariant queue == SumSeen(held, rank, seen)
      decreases |ids|
    {
      var id :| id in ids;
      AddMore(held, rank, seen, id);
      if reservations[id].index == index {
        queue := Plus(queue, Reserved(reservations[id].cost));
      }
      ids, seen := ids - {id}, seen + {id};
    }
    AddAll(held, rank, seen);
  }

  class Core {
    const cfg: Config
    /** worker_indexes_: where each rank is in `cfg.ranks`. */
    const indexes: map<int, nat>
    const queues: array<Latency>
    const active: array<set<string>>
    var reservations: map<string, Indexed>

    ghost predicate Valid()
      reads this
    {
      && Shaped(cfg, indexes) && queues.Length == active.Length == |cfg.ranks|
      && InRange(cfg, reservations)
    }

    /** The state it stands for, by rank. */
    ghost function S(): State
      requires Valid()
      reads this, queues, active
    {
      State(ByRank(cfg, indexes, queues[..]), ByRank(cfg, indexes, active[..]), ReservedByRank(cfg, reservations))
    }

    constructor (cfg: Config, active: map<int, set<string>>)
      requires ConfigOk(cfg)
      ensures Valid() && this.cfg == cfg && fresh(queues) && fresh(this.active) && S() == Init(cfg, active)
    {
      this.cfg := cfg;
      var n := |cfg.ranks|;
      var positions := IndexRanks(cfg);
      this.indexes := positions;
      this.queues := new Latency[n](_ => ZERO);
      this.active := new set<string>[n](
        i requires 0 <= i < n => if cfg.ranks[i] in active then active[cfg.ranks[i]] else {});
      reservations := map[];
      new;
      InitByRank(cfg, indexes, queues[..], this.active[..], active);
    }

    /** calculate_cost */
    method CostFor(t: Task, index: nat) returns (cost: Result<Cost, Error>)
      requires Valid() && TaskOk(t) && t.batch <= LLONG_MAX && index < |cfg.ranks|
      ensures StateOk(cfg, S()) && cfg.ranks[index] in cfg.hosts
      ensures cost == CostOf(Compiled, cfg, S(), t, cfg.ranks[index])
    {
      StateIsOk(cfg, indexes, queues[..], active[..], reservations);
      SlotWritten(cfg, indexes, queues[..], index, ZERO);
      SlotWritten(cfg, indexes, active[..], index, {});
      var transfer := ComputeTransfer(cfg, t, cfg.ranks[index]);
      var loading, execution := ZERO, ZERO;
      if t.usesProfile {
        if t.model !in cfg.profiles {
          loading, execution := Inf, Inf;
        } else {
          if t.model !in active[index] {
            loading := cfg.profiles[t.model].loading;
          }
          var found := LookupCompiled(cfg.profiles[t.model].table, t.mode, t.batch, t.height, t.width);
          if found.Err? { return Err(BadBatch(found.error)); }
          execution := found.value;
        }
      }
      return Ok(Cost(queues[index], transfer, loading, execution));
    }

    /** The search keeps no worker while every cost so far is infinite. */
    method FindBest(t: Task) returns (best: Result<Option<Indexed>, Error>)
      requires Valid() && TaskOk(t) && t.batch <= LLONG_MAX
      ensures StateOk(cfg, S())
      ensures best.Ok? && best.value.Some? ==> best.value.value.index < |cfg.ranks|
      ensures match Best(Compiled, cfg, S(), t, |cfg.ranks|)
              case Err(e) => best == Err(e)
              case Ok(found) => best.Ok? && Keeps(cfg, found, best.value)
    {
      hide CostOf, Best, Keeps, Total;
      StateIsOk(cfg, indexes, queues[..], active[..], reservations);
      BestNone(Compiled, cfg, S(), t);
      KeepsNone(cfg);
      var found: Option<Indexed> := None;
      ghost var reference: Option<Reservation> := None;
      for i := 0 to |cfg.ranks|
        invariant Best(Compiled, cfg, S(), t, i) == Ok(reference)
        invariant found.Some? ==> found.value.index < |cfg.ranks|
        invariant Keeps(cfg, reference, found)
      {
        BestStep(Compiled, cfg, S(), t, i);
        SlotWritten(cfg, indexes, queues[..], i, ZERO);
        if Less(cfg.threshold, queues[i]) { continue; }
        var cost := CostFor(t, i);
        if cost.Err? {
          BestFails(Compiled, cfg, S(), t, i + 1, |cfg.ranks|);
          return Err(cost.error);
        }
        KeepsMore(cfg, reference, found, i, cost.value);
        reference := Better(reference, Reservation(cfg.ranks[i], cost.value));
        if Less(Total(cost.value), if found.None? then Inf else Total(found.value.cost)) {
          found := Some(Indexed(i, cost.value));
        }
      }
      return Ok(found);
    }

    /** record_reservation */
    method RecordReservation(id: string, r: Indexed)
      requires Valid() && r.index < |cfg.ranks|
      modifies this`reservations, queues
      ensures Valid() && StateOk(cfg, old(S())) && cfg.ranks[r.index] in cfg.hosts
      ensures S() == Record(old(S()), id, Reservation(cfg.ranks[r.index], r.cost))
    {
      StateIsOk(cfg, indexes, queues[..], active[..], reservations);
      ReservationWritten(cfg, reservations, id, r);
      SlotWritten(cfg, indexes, queues[..], r.index, Plus(queues[r.index], Reserved(r.cost)));
      reservations := reservations[id := r];
      ghost var slots := queues[..];
      queues[r.index] := Plus(queues[r.index], Reserved(r.cost));
      assert queues[..] == slots[r.index := Plus(slots[r.index], Reserved(r.cost))];
    }

    method SelectAndReserve(t: Task) returns (o: Outcome)
      requires Valid() && TaskOk(t) && t.batch <= LLONG_MAX
      modifies this`reservations, queues
      ensures Valid() && StateOk(cfg, old(S())) && (S(), o) == Select(Compiled, cfg, old(S()), t)
    {
      hide Best;
      StateIsOk(cfg, indexes, queues[..], active[..], reservations);
      if t.id in reservations { return Placed(cfg.ranks[reservations[t.id].index], reservations[t.id].cost); }
      assert t.id !in S().held;
      var best := FindBest(t);
      if best.Err? { return Refused(best.error); }
      if best.value.None? || Total(best.value.value.cost).Inf? { return NoWorker; }
      RecordReservation(t.id, best.value.value);
      return Placed(cfg.ranks[best.value.value.index], best.value.value.cost);
    }

    method ReserveOnWorker(t: Task, rank: int) returns (o: Outcome)
      requires Valid() && TaskOk(t) && t.batch <= LLONG_MAX
      modifies this`reservations, queues
      ensures Valid() && StateOk(cfg, old(S())) && (S(), o) == ReserveOn(Compiled, cfg, old(S()), t, rank)
    {
      hide CostOf;
      StateIsOk(cfg, indexes, queues[..], active[..], reservations);
      if rank !in indexes { return Refused(UnknownWorker); }
      if t.id in reservations {
        assert S().held[t.id].rank == cfg.ranks[reservations[t.id].index];
        if reservations[t.id].index != indexes[rank] {
          RanksDiffer(cfg, reservations[t.id].index, indexes[rank]);
          return Refused(HeldElsewhere);
        }
        return Placed(rank, reservations[t.id].cost);
      }
      assert t.id !in S().held;
      var cost := CostFor(t, indexes[rank]);
      if cost.Err? { return Refused(cost.error); }
      RecordReservation(t.id, Indexed(indexes[rank], cost.value));
      return Placed(rank, cost.value);
    }

    method Complete(id: string) returns (o: Outcome)
      requires Valid()
      modifies this`reservations, queues
      ensures Valid() && StateOk(cfg, old(S())) && (S(), o) == Scheduling.Complete(cfg, old(S()), id)
    {
      StateIsOk(cfg, indexes, queues[..], active[..], reservations);
      if id !in reservations { return Completed(false); }
      var reservation := reservations[id];
      var index, latency := reservation.index, Reserved(reservation.cost);
      ReservationDropped(cfg, reservations, id);
      reservations := reservations - {id};
      var queue: Latency;
      if latency.Inf? {
        queue := AddUp(cfg, reservations, index);
      } else {
        queue := Max(ZERO, Minus(queues[index], latency));
      }
      ghost var slots := queues[..];
      SlotWritten(cfg, indexes, slots, index, queue);
      queues[index] := queue;
      assert queues[..] == slots[index := queue];
      return Completed(true);
    }

    method UpdateActiveModels(rank: int, models: set<string>) returns (o: Outcome)
      requires Valid()
      modifies active
      ensures Valid() && (S(), o) == UpdateActive(cfg, old(S()), rank, models)
    {
      if rank !in indexes { return Refused(UnknownWorker); }
      ghost var slots := active[..];
      SlotWritten(cfg, indexes, slots, indexes[rank], models);
      active[indexes[rank]] := models;
      assert active[..] == slots[indexes[rank] := models];
      return Updated;
    }
  }

  /** The reference's best worker, unless its cost is infinite. */
  ghost predicate Keeps(cfg: Config, reference: Option<Reservation>, found: Option<Indexed>) {
    if reference.None? || Total(reference.value.cost).Inf? then found.None?
    else found.Some? && found.value.index < |cfg.ranks|
         && reference.value == Reservation(cfg.ranks[found.value.index], found.value.cost)
  }

  lemma KeepsMore(cfg: Config, reference: Option<Reservation>, found: Option<Indexed>, i: nat, cost: Cost)
    requires Keeps(cfg, reference, found) && i < |cfg.ranks|
    ensures Keeps(cfg, Better(reference, Reservation(cfg.ranks[i], cost)),
                  if Less(Total(cost), if found.None? then Inf else Total(found.value.cost)) then Some(Indexed(i, cost))
                      else found)
  {
  }

  lemma KeepsNone(cfg: Config)
    ensures Keeps(cfg, None, None)
  {
  }

  lemma RanksDiffer(cfg: Config, i: nat, j: nat)
    requires ConfigOk(cfg) && i < |cfg.ranks| && j < |cfg.ranks| && i != j
    ensures cfg.ranks[i] != cfg.ranks[j]
  {
  }

  lemma SameReservations(cfg: Config, reservations: map<string, Indexed>, index: nat)
    requires ConfigOk(cfg) && InRange(cfg, reservations) && index < |cfg.ranks|
    ensures var held := ReservedByRank(cfg, reservations);
            held.Keys == reservations.Keys
            && forall id | id in reservations :: held[id].cost == reservations[id].cost
                                                 && (held[id].rank == cfg.ranks[index] <==>
                                                     reservations[id].index == index)
  {
  }
}
