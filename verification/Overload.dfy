/** Refusing a request for overload, and why no schedule could have met its deadline. */
module Overload {
  import opened Wrappers
  import opened Latencies

  datatype Task = Task(request: string, name: string)

  datatype Placement = Placement(start: real, worker: nat)

  /** The requests in flight: profiled latencies of their tasks, one request a batch, and the nodes already done. */
  datatype Load = Load(arrivals: set<string>, tasks: map<string, map<string, Latency>>,
                       completed: map<string, set<string>>)

  ghost predicate Costs(load: Load) {
    forall r, n | r in load.tasks && n in load.tasks[r] :: NonNegative(load.tasks[r][n])
  }

  /** Requests between registration and graph setup are not schedulable yet. */
  function Schedulable(load: Load): set<string> {
    set r | r in load.arrivals && r in load.tasks && r in load.completed
  }

  function Remaining(load: Load, r: string): set<string>
    requires r in Schedulable(load)
  {
    load.tasks[r].Keys - load.completed[r]
  }

  /** Every task still to run, with its latency. */
  function Waiting(load: Load): map<Task, Latency> {
    map r, n | r in Schedulable(load) && n in Remaining(load, r) :: Task(r, n) := load.tasks[r][n]
  }

  /** The tasks of a request, and the work they amount to. */
  function TasksOf(waiting: map<Task, Latency>, r: string): set<Task> {
    set t | t in waiting && t.request == r
  }

  // ---------------------------------------------------------------- schedules

  ghost predicate Before(waiting: map<Task, Latency>, plan: map<Task, Placement>, a: Task, b: Task)
    requires a in waiting && a in plan && b in plan && waiting[a].Fin?
  {
    plan[a].start + waiting[a].r <= plan[b].start
  }

  /** These tasks run one after another between 0 and `end`. */
  ghost predicate Serial(waiting: map<Task, Latency>, plan: map<Task, Placement>, ids: set<Task>, end: real) {
    && ids <= waiting.Keys && ids <= plan.Keys
    && (forall t | t in ids ::
          waiting[t].Fin? && waiting[t].r >= 0.0 && 0.0 <= plan[t].start && plan[t].start + waiting[t].r <= end)
    && forall a, b | a in ids && b in ids && a != b :: Before(waiting, plan, a, b) || Before(waiting, plan, b, a)
  }

  /** Everything runs by `end`: one task at a time on each worker, and each request one task after another. */
  ghost predicate Finishes(waiting: map<Task, Latency>, plan: map<Task, Placement>, workers: nat, end: real) {
    && plan.Keys == waiting.Keys && end >= 0.0
    && (forall t | t in plan :: plan[t].worker < workers)
    && (forall w: nat :: Serial(waiting, plan, OnWorker(plan, w), end))
    && (forall r :: Serial(waiting, plan, TasksOf(waiting, r), end))
  }

  function OnWorker(plan: map<Task, Placement>, w: nat): set<Task> {
    set t | t in plan && plan[t].worker == w
  }

  // ---------------------------------------------------------------- serial work fits its time

  /** The task that starts last; among those, one that ends last. */
  lemma {:induction false} LastTask(waiting: map<Task, Latency>, plan: map<Task, Placement>, ids: set<Task>, end: real)
    returns (last: Task)
    requires ids != {} && Serial(waiting, plan, ids, end)
    ensures last in ids
    ensures forall t | t in ids ::
              plan[t].start < plan[last].start || (plan[t].start == plan[last].start && waiting[t].r <= waiting[last].r)
    decreases |ids|
  {
    var x :| x in ids;
    if ids == {x} {
      last := x;
    } else {
      assert ids - {x} != {};
      var y := LastTask(waiting, plan, ids - {x}, end);
      var earlier := plan[y].start < plan[x].start || (plan[y].start == plan[x].start && waiting[y].r <= waiting[x].r);
      last := if earlier then x else y;
    }
  }

  /** Tasks that run one after another take no more than the time they run in. */
  lemma {:induction false} SerialFits(waiting: map<Task, Latency>, plan: map<Task, Placement>, ids: set<Task>,
                                      end: real)
    requires Serial(waiting, plan, ids, end) && end >= 0.0
    ensures SumOver(ids, waiting).Fin? && SumOver(ids, waiting).r <= end
    decreases |ids|
  {
    if ids != {} {
      var last := LastTask(waiting, plan, ids, end);
      forall t | t in ids - {last} ensures plan[t].start + waiting[t].r <= plan[last].start {
        assert Before(waiting, plan, t, last) || Before(waiting, plan, last, t);
      }
      SerialFits(waiting, plan, ids - {last}, plan[last].start);
      SumSplit(ids, waiting, last);
    }
  }

  lemma {:induction false} SumUnion<T(!new)>(a: set<T>, b: set<T>, f: map<T, Latency>)
    requires a !! b && a + b <= f.Keys
    ensures SumOver(a + b, f) == Plus(SumOver(a, f), SumOver(b, f))
    decreases |a|
  {
    if a == {} {
      assert a + b == b;
      SumNothing(f);
      assert Plus(ZERO, SumOver(b, f)) == SumOver(b, f);
    } else {
      var x :| x in a;
      assert a + b - {x} == (a - {x}) + b;
      SumUnion(a - {x}, b, f);
      SumSplit(a + b, f, x);
      SumSplit(a, f, x);
    }
  }

  /** The time `w` workers have until `end`. */
  function Span(w: nat, end: real): real {
    if w == 0 then 0.0 else Span(w - 1, end) + end
  }

  lemma {:induction false} SpanIsProduct(w: nat, end: real)
    ensures Span(w, end) == (w as real) * end
  {
    if w > 0 {
      SpanIsProduct(w - 1, end);
      assert (w as real) * end == ((w - 1) as real + 1.0) * end;
    }
  }

  function UpTo(plan: map<Task, Placement>, w: nat): set<Task> {
    set t | t in plan && plan[t].worker < w
  }

  lemma UpToSplits(plan: map<Task, Placement>, w: nat)
    requires w > 0
    ensures UpTo(plan, w) == UpTo(plan, w - 1) + OnWorker(plan, w - 1) && UpTo(plan, w - 1) !! OnWorker(plan, w - 1)
    ensures UpTo(plan, w) <= plan.Keys
  {
  }

  lemma WorkerFits(waiting: map<Task, Latency>, plan: map<Task, Placement>, workers: nat, end: real, w: nat)
    requires Finishes(waiting, plan, workers, end)
    ensures plan.Keys == waiting.Keys && SumOver(OnWorker(plan, w), waiting).Fin?
              && SumOver(OnWorker(plan, w), waiting).r <= end
  {
    SerialFits(waiting, plan, OnWorker(plan, w), end);
  }

  /** `w` workers get through `w` times what one does. */
  lemma {:induction false} WorkersFit(waiting: map<Task, Latency>, plan: map<Task, Placement>, workers: nat, end: real,
                                      w: nat)
    requires Finishes(waiting, plan, workers, end)
    ensures UpTo(plan, w) <= waiting.Keys
    ensures SumOver(UpTo(plan, w), waiting).Fin? && SumOver(UpTo(plan, w), waiting).r <= Span(w, end)
  {
    if w == 0 {
      assert UpTo(plan, 0) == {};
      SumNothing(waiting);
    } else {
      hide Serial, Finishes, OnWorker, UpTo, SumOver;
      WorkersFit(waiting, plan, workers, end, w - 1);
      WorkerFits(waiting, plan, workers, end, w - 1);
      UpToSplits(plan, w);
      SumUnion(UpTo(plan, w - 1), OnWorker(plan, w - 1), waiting);
    }
  }

  /** Total work over workers, or the work of one request. */
  function Shared(work: Latency, workers: nat): Latency
    requires workers > 0
  {
    if work.Fin? then Fin(work.r / (workers as real)) else Inf
  }

  /** The estimate is the larger of the work per worker and the work of the longest request. */
  ghost predicate Estimates(t: Latency, waiting: map<Task, Latency>, workers: nat)
    requires workers > 0
  {
    && AtMost(Shared(SumOver(waiting.Keys, waiting), workers), t)
    && (forall r :: AtMost(SumOver(TasksOf(waiting, r), waiting), t))
    && (t == Shared(SumOver(waiting.Keys, waiting), workers) || exists r :: t == SumOver(TasksOf(waiting, r), waiting))
  }

  /** No schedule finishes before the estimate. */
  lemma EstimateIsLowerBound(t: Latency, waiting: map<Task, Latency>, workers: nat, plan: map<Task, Placement>,
                             end: real)
    requires workers > 0 && Estimates(t, waiting, workers) && Finishes(waiting, plan, workers, end)
    ensures t.Fin? && t.r <= end
  {
    var total := SumOver(waiting.Keys, waiting);
    WorkersFit(waiting, plan, workers, end, workers);
    SpanIsProduct(workers, end);
    assert UpTo(plan, workers) == waiting.Keys;
    if t == Shared(total, workers) {
      DividedFits(total.r, workers, end);
    } else {
      var r :| t == SumOver(TasksOf(waiting, r), waiting);
      SerialFits(waiting, plan, TasksOf(waiting, r), end);
    }
  }

  lemma DividedFits(work: real, workers: nat, end: real)
    requires workers > 0 && work <= (workers as real) * end
    ensures work / (workers as real) <= end
  {
    var w := workers as real;
    assert (work / w) * w == work;
    if work / w > end { assert (work / w) * w > end * w; }
  }

  // ---------------------------------------------------------------- the estimate

  function SumList(list: seq<Latency>): Latency {
    if list == [] then ZERO else Plus(SumList(list[..|list| - 1]), list[|list| - 1])
  }

  /** The latencies of the tasks of a request that are not done, in some order. */
  method WaitingLatencies(tasks: map<string, Latency>, done: set<string>) returns (list: seq<Latency>)
    ensures SumList(list) == SumOver(tasks.Keys - done, tasks)
  {
    list := [];
    var seen: set<string> := {};
    SumNothing(tasks);
    assert tasks.Keys * {} - done == {};
    while seen != tasks.Keys
      invariant seen <= tasks.Keys && SumList(list) == SumOver(seen - done, tasks)
      decreases tasks.Keys - seen
    {
      SomeUnseen(seen, tasks.Keys);
      var name :| name in tasks.Keys - seen;
      if name !in done {
        list := list + [tasks[name]];
        assert list[..|list| - 1] + [tasks[name]] == list;
        assert seen + {name} - done - {name} == seen - done;
        SumSplit(seen + {name} - done, tasks, name);
        Commutes(SumOver(seen - done, tasks), tasks[name]);
      } else {
        assert seen + {name} - done == seen - done;
      }
      seen := seen + {name};
    }
  }

  lemma SomeUnseen<T(!new)>(seen: set<T>, all: set<T>)
    requires seen <= all && seen != all
    ensures exists x :: x in all - seen
  {
    assert !(all <= seen);
    var x :| x in all && x !in seen;
    assert x in all - seen;
  }

  lemma Commutes(a: Latency, b: Latency)
    ensures Plus(a, b) == Plus(b, a)
  {
  }

  function Works(latencies: map<string, seq<Latency>>): map<string, Latency> {
    map r | r in latencies :: SumList(latencies[r])
  }

  /** The larger of the shared total and the longest request; 0 when there is no work and infinite without workers. */
  method CompletionTime(latencies: map<string, seq<Latency>>, workers: nat) returns (t: Latency)
    requires forall r | r in latencies :: NonNegative(SumList(latencies[r]))
    ensures workers == 0 ==> t == Inf
    ensures workers > 0 ==>
              var works := Works(latencies);
              var shared := Shared(SumOver(works.Keys, works), workers);
              && NonNegative(t) && AtMost(shared, t) && (forall r | r in works :: AtMost(works[r], t))
              && (t == shared || exists r :: r in works && t == works[r])
  {
    if workers == 0 { return Inf; }
    ghost var works := Works(latencies);
    var total, longest := ZERO, ZERO;
    var seen: set<string> := {};
    SumNothing(works);
    while seen != latencies.Keys
      invariant seen <= latencies.Keys && total == SumOver(seen, works) && NonNegative(total) && NonNegative(longest)
      invariant forall r | r in seen :: AtMost(works[r], longest)
      invariant longest == ZERO || exists r :: r in seen && longest == works[r]
      decreases latencies.Keys - seen
    {
      SomeUnseen(seen, latencies.Keys);
      var r :| r in latencies.Keys - seen;
      var work := SumList(latencies[r]);
      assert seen + {r} - {r} == seen;
      SumSplit(seen + {r}, works, r);
      Commutes(total, work);
      total := Plus(total, work);
      longest := Max(longest, work);
      seen := seen + {r};
    }
    assert works.Keys == latencies.Keys;
    SharedNonNegative(total, workers);
    if total == ZERO {
      NoWork(works);
      return ZERO;
    }
    t := Max(Shared(total, workers), longest);
  }

  lemma SharedNonNegative(work: Latency, workers: nat)
    requires workers > 0 && NonNegative(work)
    ensures NonNegative(Shared(work, workers)) && (work == ZERO ==> Shared(work, workers) == ZERO)
  {
    if work.Fin? { QuotientNonNegative(work.r, workers as real); }
  }

  lemma QuotientNonNegative(x: real, w: real)
    requires x >= 0.0 && w > 0.0
    ensures x / w >= 0.0 && (x == 0.0 ==> x / w == 0.0)
  {
    var q := x / w;
    assert q * w == x;
  }

  /** Non-negative latencies that add up to nothing are nothing. */
  lemma NoWork(works: map<string, Latency>)
    requires SumOver(works.Keys, works) == ZERO && forall r | r in works :: NonNegative(works[r])
    ensures forall r | r in works :: works[r] == ZERO
  {
    forall r | r in works ensures works[r] == ZERO {
      SumSplit(works.Keys, works, r);
      SumNonNegative(works.Keys - {r}, works);
    }
  }

  // ---------------------------------------------------------------- requests and their tasks

  /** The work of a request, summed by name or by task. */
  lemma {:induction false} SumByTask(load: Load, r: string, names: set<string>)
    requires r in Schedulable(load) && names <= Remaining(load, r)
    ensures var ids := set n | n in names :: Task(r, n);
            ids <= Waiting(load).Keys && SumOver(ids, Waiting(load)) == SumOver(names, load.tasks[r])
    decreases |names|
  {
    var ids := set n | n in names :: Task(r, n);
    if names == {} {
      assert ids == {};
      SumNothing(Waiting(load));
      SumNothing(load.tasks[r]);
    } else {
      var n :| n in names;
      SumByTask(load, r, names - {n});
      assert ids - {Task(r, n)} == set m | m in names - {n} :: Task(r, m);
      SumSplit(ids, Waiting(load), Task(r, n));
      SumSplit(names, load.tasks[r], n);
    }
  }

  lemma RequestWork(load: Load, r: string)
    requires r in Schedulable(load)
    ensures SumOver(TasksOf(Waiting(load), r), Waiting(load)) == SumOver(Remaining(load, r), load.tasks[r])
  {
    SumByTask(load, r, Remaining(load, r));
    assert TasksOf(Waiting(load), r) == set n | n in Remaining(load, r) :: Task(r, n);
  }

  function TasksOfAll(waiting: map<Task, Latency>, requests: set<string>): set<Task> {
    set t | t in waiting && t.request in requests
  }

  /** Summing request by request sums everything. */
  lemma {:induction false} SumByRequest(waiting: map<Task, Latency>, requests: set<string>, works: map<string, Latency>)
    requires requests <= works.Keys && forall r | r in requests :: works[r] == SumOver(TasksOf(waiting, r), waiting)
    ensures SumOver(requests, works) == SumOver(TasksOfAll(waiting, requests), waiting)
    decreases |requests|
  {
    if requests == {} {
      assert TasksOfAll(waiting, requests) == {};
      SumNothing(waiting);
      SumNothing(works);
    } else {
      var r :| r in requests;
      SumByRequest(waiting, requests - {r}, works);
      assert TasksOfAll(waiting, requests) == TasksOf(waiting, r) + TasksOfAll(waiting, requests - {r});
      SumUnion(TasksOf(waiting, r), TasksOfAll(waiting, requests - {r}), waiting);
      SumSplit(requests, works, r);
    }
  }

  lemma EstimateOf(load: Load, works: map<string, Latency>, workers: nat, t: Latency)
    requires Costs(load) && workers > 0 && works.Keys == Schedulable(load)
    requires forall r | r in works :: works[r] == SumOver(Remaining(load, r), load.tasks[r])
    requires var shared := Shared(SumOver(works.Keys, works), workers);
             && NonNegative(t) && AtMost(shared, t) && (forall r | r in works :: AtMost(works[r], t))
             && (t == shared || exists r :: r in works && t == works[r])
    ensures Estimates(t, Waiting(load), workers)
  {
    var waiting := Waiting(load);
    forall r | r in works ensures works[r] == SumOver(TasksOf(waiting, r), waiting) { RequestWork(load, r); }
    SumByRequest(waiting, works.Keys, works);
    assert TasksOfAll(waiting, works.Keys) == waiting.Keys;
    forall r ensures AtMost(SumOver(TasksOf(waiting, r), waiting), t) {
      if r !in works {
        assert TasksOf(waiting, r) == {};
        SumNothing(waiting);
      }
    }
  }

  /** The latencies still to come, request by request. */
  method WaitingTaskLatencies(load: Load) returns (latencies: map<string, seq<Latency>>)
    ensures latencies.Keys == Schedulable(load)
    ensures forall r | r in latencies :: SumList(latencies[r]) == SumOver(Remaining(load, r), load.tasks[r])
  {
    hide SumOver, SumList;
    latencies := map[];
    var seen: set<string> := {};
    while seen != load.arrivals
      invariant seen <= load.arrivals && latencies.Keys == Schedulable(load) * seen
      invariant forall r | r in latencies :: SumList(latencies[r]) == SumOver(Remaining(load, r), load.tasks[r])
      decreases load.arrivals - seen
    {
      SomeUnseen(seen, load.arrivals);
      var r :| r in load.arrivals - seen;
      seen := seen + {r};
      if r !in load.tasks || r !in load.completed { continue; }
      var list := WaitingLatencies(load.tasks[r], load.completed[r]);
      latencies := latencies[r := list];
    }
  }

  // ---------------------------------------------------------------- the decision

  /** Work that no schedule can finish in time. */
  ghost predicate CannotFinish(waiting: map<Task, Latency>, workers: nat, slack: real) {
    forall plan, end | Finishes(waiting, plan, workers, end) :: end > slack
  }

  /**
   * _is_system_overloaded. Never while the check is off, without a deadline, or with more workers than
   * requests in flight; and when it says so with any worker at all, nothing meets the deadline.
   */
  method IsSystemOverloaded(enabled: bool, slack: Option<real>, load: Load, workers: nat) returns (overloaded: bool)
    requires Costs(load)
    ensures overloaded ==> enabled && slack.Some? && workers <= |Schedulable(load)|
    ensures overloaded && workers > 0 ==> CannotFinish(Waiting(load), workers, slack.value)
    ensures enabled && slack.Some? && workers == 0 ==> overloaded
    ensures enabled && slack.Some? && 0 < workers <= |Schedulable(load)| ==>
              exists t :: Estimates(t, Waiting(load), workers) && (overloaded <==> Less(Fin(slack.value), t))
  {
    if !enabled || slack.None? { return false; }
    var latencies := WaitingTaskLatencies(load);
    if workers > |latencies| { return false; }
    forall r | r in latencies ensures NonNegative(SumList(latencies[r])) {
      SumNonNegative(Remaining(load, r), load.tasks[r]);
    }
    var t := CompletionTime(latencies, workers);
    overloaded := Less(Fin(slack.value), t);
    if workers > 0 {
      hide SumOver, SumList, Waiting, Finishes, Estimates, Shared;
      EstimateOf(load, Works(latencies), workers, t);
      forall plan, end | overloaded && Finishes(Waiting(load), plan, workers, end) ensures end > slack.value {
        EstimateIsLowerBound(t, Waiting(load), workers, plan, end);
      }
    }
  }
}
