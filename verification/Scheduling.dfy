/**
 * Scheduling state and its operations, as the reference core defines them; the compiled core differs
 * in one lookup only.
 */
module Scheduling {
  import opened Wrappers
  import opened BuddyLayout
  import opened BuddyArith
  import opened Latencies

  // ---------------------------------------------------------------- inputs

  datatype TransferProfile = TransferProfile(sizes: seq<int>, overheads: seq<Latency>)

  datatype Profile = Profile(loading: Latency, table: Table)

  datatype Config = Config(
    ranks: seq<int>, hosts: map<int, int>, profiles: map<string, Profile>,
    intra: TransferProfile, inter: TransferProfile, threshold: Latency)

  /** Tensor `i` of a task can be fetched from sources `offsets[i]` up to `offsets[i + 1]`. */
  datatype Task = Task(
    id: string, model: string, mode: string, batch: int, usesProfile: bool,
    offsets: seq<nat>, ranks: seq<int>, hosts: seq<int>, bytes: seq<int>, height: int, width: int)

  /** What TaskSpec refuses otherwise. */
  predicate TaskOk(t: Task) {
    && |t.hosts| == |t.ranks| && |t.bytes| == |t.ranks|
    && t.offsets != [] && t.offsets[0] == 0 && t.offsets[|t.offsets| - 1] == |t.ranks|
    && forall i, j | 0 <= i < j < |t.offsets| :: t.offsets[i] <= t.offsets[j]
  }

  predicate ProfileOk(p: TransferProfile) {
    |p.sizes| == |p.overheads| && forall i, j | 0 <= i < j < |p.sizes| :: p.sizes[i] <= p.sizes[j]
  }

  predicate ConfigOk(cfg: Config) {
    && cfg.ranks != [] && (forall i, j | 0 <= i < j < |cfg.ranks| :: cfg.ranks[i] != cfg.ranks[j])
    && (forall r | r in cfg.hosts :: r in cfg.ranks) && (forall r | r in cfg.ranks :: r in cfg.hosts)
    && ProfileOk(cfg.intra) && ProfileOk(cfg.inter)
  }

  /** Profiled and measured latencies are not negative. */
  ghost predicate CostsNonNegative(cfg: Config) {
    && (forall m | m in cfg.profiles :: NonNegative(cfg.profiles[m].loading))
    && (forall m, k | m in cfg.profiles && k in cfg.profiles[m].table :: NonNegative(cfg.profiles[m].table[k]))
    && (forall i | 0 <= i < |cfg.intra.overheads| :: NonNegative(cfg.intra.overheads[i]))
    && (forall i | 0 <= i < |cfg.inter.overheads| :: NonNegative(cfg.inter.overheads[i]))
  }

  // ---------------------------------------------------------------- costs

  datatype Cost = Cost(queue: Latency, transfer: Latency, loading: Latency, execution: Latency)

  function Reserved(c: Cost): Latency {
    Plus(Plus(c.transfer, c.loading), c.execution)
  }

  function Total(c: Cost): Latency {
    Plus(c.queue, Reserved(c))
  }

  /** Microseconds to seconds. */
  function Seconds(l: Latency): Latency {
    if l.Fin? then Fin(l.r / 1000000.0) else Inf
  }

  /** Index of the first block at least `size` long (bisect_left, lower_bound). */
  function LowerBound(sizes: seq<int>, size: int): (i: nat)
    ensures i <= |sizes|
    ensures i < |sizes| ==> sizes[i] >= size
    ensures forall j | 0 <= j < i :: sizes[j] < size
  {
    if sizes == [] then 0
    else if sizes[0] >= size then 0
    else
      var i := LowerBound(sizes[1..], size);
      assert forall j | 0 < j < i + 1 :: sizes[j] == sizes[1..][j - 1];
      i + 1
  }

  /** The overhead of the smallest profiled block that holds the size, or of the largest block if none does. */
  function TransferLookup(p: TransferProfile, size: int): (l: Latency)
    requires ProfileOk(p)
    ensures p.sizes == [] ==> l == Inf
    ensures p.sizes != [] ==> exists i | 0 <= i < |p.sizes| ::
              && l == Seconds(p.overheads[i]) && (forall j | 0 <= j < i :: p.sizes[j] < size)
              && (p.sizes[i] >= size || i == |p.sizes| - 1)
  {
    if p.sizes == [] then Inf
    else
      var i := LowerBound(p.sizes, size);
      Seconds(p.overheads[if i == |p.sizes| then i - 1 else i])
  }

  /** The first source on the destination's host, or else the first source. */
  function SourceFor(hosts: seq<int>, begin: nat, from: nat, end: nat, host: int): (i: nat)
    requires begin <= from <= end <= |hosts| && begin < end
    ensures begin <= i < end
    ensures (i == begin && forall j | from <= j < end :: hosts[j] != host)
            || (from <= i && hosts[i] == host && forall j | from <= j < i :: hosts[j] != host)
    decreases end - from
  {
    if from == end then begin
    else if hosts[from] == host then from
    else SourceFor(hosts, begin, from + 1, end, host)
  }

  function TensorLatency(cfg: Config, t: Task, i: nat, rank: int): Latency
    requires ConfigOk(cfg) && TaskOk(t) && i + 1 < |t.offsets| && rank in cfg.hosts
  {
    if t.offsets[i] == t.offsets[i + 1] then ZERO
    else
      var source := SourceFor(t.hosts, t.offsets[i], t.offsets[i], t.offsets[i + 1], cfg.hosts[rank]);
      if t.ranks[source] == rank then ZERO
      else TransferLookup(if t.hosts[source] == cfg.hosts[rank] then cfg.intra else cfg.inter, t.bytes[source])
  }

  /** Transfer latency of the first `n` tensors. */
  function TransferLatency(cfg: Config, t: Task, n: nat, rank: int): Latency
    requires ConfigOk(cfg) && TaskOk(t) && n < |t.offsets| && rank in cfg.hosts
  {
    if n == 0 then ZERO
    else Plus(TransferLatency(cfg, t, n - 1, rank), TensorLatency(cfg, t, n - 1, rank))
  }

  // ---------------------------------------------------------------- state

  datatype Reservation = Reservation(rank: int, cost: Cost)

  datatype State = State(queues: map<int, Latency>, active: map<int, set<string>>, held: map<string, Reservation>)

  predicate StateOk(cfg: Config, s: State) {
    && s.queues.Keys == cfg.hosts.Keys && s.active.Keys == cfg.hosts.Keys
    && forall id | id in s.held :: s.held[id].rank in cfg.hosts
  }

  datatype Error = UnknownWorker | HeldElsewhere | BadBatch(batch: BatchError)

  datatype Outcome = Placed(rank: int, cost: Cost) | NoWorker | Completed(known: bool) | Updated | Refused(error: Error)

  function FromBatch<T>(r: Result<T, BatchError>): Result<T, Error> {
    match r case Ok(v) => Ok(v) case Err(e) => Err(BadBatch(e))
  }

  ghost function CostOf(flavor: Flavor, cfg: Config, s: State, t: Task, rank: int): Result<Cost, Error>
    requires ConfigOk(cfg) && TaskOk(t) && StateOk(cfg, s) && rank in cfg.hosts
  {
    var transfer := TransferLatency(cfg, t, |t.offsets| - 1, rank);
    if !t.usesProfile then Ok(Cost(s.queues[rank], transfer, ZERO, ZERO))
    else if t.model !in cfg.profiles then Ok(Cost(s.queues[rank], transfer, Inf, Inf))
    else
      var loading := if t.model in s.active[rank] then ZERO else cfg.profiles[t.model].loading;
      var execution :- FromBatch(ExecutionLatency(flavor, cfg.profiles[t.model].table, t.mode, t.batch, t.height,
                                                  t.width));
      Ok(Cost(s.queues[rank], transfer, loading, execution))
  }

  predicate Eligible(cfg: Config, s: State, rank: int)
    requires rank in s.queues
  {
    AtMost(s.queues[rank], cfg.threshold)
  }

  /** The best of the first `n` workers: a later one replaces it only when strictly cheaper. */
  ghost function Best(flavor: Flavor, cfg: Config, s: State, t: Task, n: nat): (r: Result<Option<Reservation>, Error>)
    requires ConfigOk(cfg) && TaskOk(t) && StateOk(cfg, s) && n <= |cfg.ranks|
    ensures r.Ok? && r.value.Some? ==> r.value.value.rank in cfg.hosts
  {
    if n == 0 then Ok(None)
    else
      var best :- Best(flavor, cfg, s, t, n - 1);
      var rank := cfg.ranks[n - 1];
      assert rank in cfg.ranks;
      if !Eligible(cfg, s, rank) then Ok(best)
      else
        var cost :- CostOf(flavor, cfg, s, t, rank);
        Ok(Better(best, Reservation(rank, cost)))
  }

  /** What is best so far is replaced only by something strictly cheaper. */
  function Better(best: Option<Reservation>, r: Reservation): Option<Reservation> {
    if best.None? || Less(Total(r.cost), Total(best.value.cost)) then Some(r) else best
  }

  lemma BestNone(flavor: Flavor, cfg: Config, s: State, t: Task)
    requires ConfigOk(cfg) && TaskOk(t) && StateOk(cfg, s)
    ensures Best(flavor, cfg, s, t, 0) == Ok(None)
  {
  }

  lemma BestStep(flavor: Flavor, cfg: Config, s: State, t: Task, i: nat)
    requires ConfigOk(cfg) && TaskOk(t) && StateOk(cfg, s) && i < |cfg.ranks|
    ensures cfg.ranks[i] in cfg.ranks && cfg.ranks[i] in cfg.hosts
    ensures var best, cost := Best(flavor, cfg, s, t, i), CostOf(flavor, cfg, s, t, cfg.ranks[i]);
            Best(flavor, cfg, s, t, i + 1)
            == if best.Err? then best
               else if !Eligible(cfg, s, cfg.ranks[i]) then best
               else if cost.Err? then Err(cost.error)
               else Ok(Better(best.value, Reservation(cfg.ranks[i], cost.value)))
  {
    var rank := cfg.ranks[i];
    assert rank in cfg.ranks && rank in cfg.hosts;
  }

  /** Once a worker's cost cannot be computed, the search has failed. */
  lemma {:induction false} BestFails(flavor: Flavor, cfg: Config, s: State, t: Task, m: nat, n: nat)
    requires ConfigOk(cfg) && TaskOk(t) && StateOk(cfg, s) && m <= n <= |cfg.ranks| && Best(flavor, cfg, s, t, m).Err?
    ensures Best(flavor, cfg, s, t, n) == Best(flavor, cfg, s, t, m)
    decreases n - m
  {
    if m < n { BestFails(flavor, cfg, s, t, m, n - 1); }
  }

  function Record(s: State, id: string, r: Reservation): State
    requires r.rank in s.queues
  {
    s.(held := s.held[id := r], queues := s.queues[r.rank := Plus(s.queues[r.rank], Reserved(r.cost))])
  }

  ghost function Select(flavor: Flavor, cfg: Config, s: State, t: Task): (State, Outcome)
    requires ConfigOk(cfg) && TaskOk(t) && StateOk(cfg, s)
  {
    if t.id in s.held then (s, Placed(s.held[t.id].rank, s.held[t.id].cost))
    else
      match Best(flavor, cfg, s, t, |cfg.ranks|)
      case Err(e) => (s, Refused(e))
      case Ok(None) => (s, NoWorker)
      case Ok(Some(r)) =>
        if Total(r.cost).Inf? then (s, NoWorker) else (Record(s, t.id, r), Placed(r.rank, r.cost))
  }

  ghost function ReserveOn(flavor: Flavor, cfg: Config, s: State, t: Task, rank: int): (State, Outcome)
    requires ConfigOk(cfg) && TaskOk(t) && StateOk(cfg, s)
  {
    if rank !in cfg.hosts then (s, Refused(UnknownWorker))
    else if t.id in s.held then
      if s.held[t.id].rank != rank then (s, Refused(HeldElsewhere)) else (s, Placed(rank, s.held[t.id].cost))
    else
      match CostOf(flavor, cfg, s, t, rank)
      case Err(e) => (s, Refused(e))
      case Ok(cost) => (Record(s, t.id, Reservation(rank, cost)), Placed(rank, cost))
  }

  /** Latencies reserved, by task. */
  function Latencies_(held: map<string, Reservation>): map<string, Latency> {
    map id | id in held :: Reserved(held[id].cost)
  }

  /** The reservations of one worker. */
  function HeldBy(held: map<string, Reservation>, rank: int): set<string> {
    set id | id in held && held[id].rank == rank
  }

  ghost function QueueOf(held: map<string, Reservation>, rank: int): Latency {
    SumOver(HeldBy(held, rank), Latencies_(held))
  }

  /** After an infinite reservation the queue is added up again; a finite one is subtracted. */
  ghost function Complete(cfg: Config, s: State, id: string): (State, Outcome)
    requires StateOk(cfg, s)
  {
    if id !in s.held then (s, Completed(false))
    else
      var rank, latency, rest := s.held[id].rank, Reserved(s.held[id].cost), s.held - {id};
      var queue := if latency.Inf? then QueueOf(rest, rank) else Max(ZERO, Minus(s.queues[rank], latency));
      (s.(held := rest, queues := s.queues[rank := queue]), Completed(true))
  }

  function UpdateActive(cfg: Config, s: State, rank: int, models: set<string>): (State, Outcome) {
    if rank !in s.active then (s, Refused(UnknownWorker)) else (s.(active := s.active[rank := models]), Updated)
  }

  // ---------------------------------------------------------------- runs

  datatype Op = SelectOp(t: Task) | ReserveOp(t: Task, rank: int) | CompleteOp(id: string) | ActiveOp(rank: int,
    models: set<string>)

  predicate OpOk(op: Op) {
    (op.SelectOp? || op.ReserveOp?) ==> TaskOk(op.t) && op.t.batch <= LLONG_MAX
  }

  ghost function Apply(flavor: Flavor, cfg: Config, s: State, op: Op): (State, Outcome)
    requires ConfigOk(cfg) && StateOk(cfg, s) && OpOk(op)
  {
    match op
    case SelectOp(t) => Select(flavor, cfg, s, t)
    case ReserveOp(t, rank) => ReserveOn(flavor, cfg, s, t, rank)
    case CompleteOp(id) => Complete(cfg, s, id)
    case ActiveOp(rank, models) => UpdateActive(cfg, s, rank, models)
  }

  lemma ApplyOk(flavor: Flavor, cfg: Config, s: State, op: Op)
    requires ConfigOk(cfg) && StateOk(cfg, s) && OpOk(op)
    ensures StateOk(cfg, Apply(flavor, cfg, s, op).0)
  {
  }

  ghost function RunOps(flavor: Flavor, cfg: Config, s: State, ops: seq<Op>): (State, seq<Outcome>)
    requires ConfigOk(cfg) && StateOk(cfg, s) && forall i | 0 <= i < |ops| :: OpOk(ops[i])
    decreases |ops|
  {
    if ops == [] then (s, [])
    else
      var (s1, o) := Apply(flavor, cfg, s, ops[0]);
      ApplyOk(flavor, cfg, s, ops[0]);
      var (s2, os) := RunOps(flavor, cfg, s1, ops[1..]);
      (s2, [o] + os)
  }

  function Init(cfg: Config, active: map<int, set<string>>): State {
    State(map r | r in cfg.hosts :: ZERO, map r | r in cfg.hosts :: if r in active then active[r] else {}, map[])
  }

  // ---------------------------------------------------------------- loops both cores have

  method FindSource(hosts: seq<int>, begin: nat, end: nat, host: int) returns (source: nat)
    requires begin < end <= |hosts|
    ensures source == SourceFor(hosts, begin, begin, end, host)
  {
    source := begin;
    for i := begin to end
      invariant SourceFor(hosts, begin, begin, end, host) == SourceFor(hosts, begin, i, end, host)
    {
      if hosts[i] == host { return i; }
    }
  }

  /** The transfer latency of a task's tensors to one worker. */
  method ComputeTransfer(cfg: Config, t: Task, rank: int) returns (latency: Latency)
    requires ConfigOk(cfg) && TaskOk(t) && rank in cfg.hosts
    ensures latency == TransferLatency(cfg, t, |t.offsets| - 1, rank)
  {
    latency := ZERO;
    for i := 0 to |t.offsets| - 1
      invariant latency == TransferLatency(cfg, t, i, rank)
    {
      var begin, end := t.offsets[i], t.offsets[i + 1];
      if begin == end {
        PlusZero(latency);
        continue;
      }
      var source := FindSource(t.hosts, begin, end, cfg.hosts[rank]);
      if t.ranks[source] == rank {
        PlusZero(latency);
        continue;
      }
      var profile := if t.hosts[source] == cfg.hosts[rank] then cfg.intra else cfg.inter;
      latency := Plus(latency, TransferLookup(profile, t.bytes[source]));
    }
  }

  lemma PlusZero(a: Latency)
    ensures Plus(a, ZERO) == a
  {
  }

  /** Adding up one more reservation. */
  lemma AddMore(held: map<string, Reservation>, rank: int, seen: set<string>, id: string)
    requires id in held && id !in seen && seen <= held.Keys
    ensures SumSeen(held, rank, seen + {id})
            == if held[id].rank == rank then Plus(SumSeen(held, rank, seen), Reserved(held[id].cost))
              else SumSeen(held, rank, seen)
  {
    var ids := HeldBy(held, rank) * (seen + {id});
    if held[id].rank == rank {
      assert ids - {id} == HeldBy(held, rank) * seen;
      SumSplit(ids, Latencies_(held), id);
    } else {
      assert ids == HeldBy(held, rank) * seen;
    }
  }

  lemma AddNone(held: map<string, Reservation>, rank: int)
    ensures SumSeen(held, rank, {}) == ZERO
  {
    assert HeldBy(held, rank) * {} == {};
  }

  lemma AddAll(held: map<string, Reservation>, rank: int, seen: set<string>)
    requires seen == held.Keys
    ensures SumSeen(held, rank, seen) == QueueOf(held, rank)
  {
    assert HeldBy(held, rank) * seen == HeldBy(held, rank);
  }

  /** The latencies of one worker's reservations among those in `seen`, added up. */
  ghost function SumSeen(held: map<string, Reservation>, rank: int, seen: set<string>): Latency {
    SumOver(HeldBy(held, rank) * seen, Latencies_(held))
  }
}
