/** Topological settling of a dependency graph, as the expander checks that an expansion can finish. */
module Kahn {
  import opened Wrappers

  type Graph<!T(==)> = map<T, set<T>>

  /** Dependencies are nodes of the graph, and no node depends on itself. */
  ghost predicate Closed<T>(g: Graph<T>) {
    forall n, d | n in g && d in g[n] :: d in g && d != n
  }

  /** Each node depends on the next. */
  ghost predicate Chain<T>(g: Graph<T>, w: seq<T>) {
    && (forall i | 0 <= i < |w| :: w[i] in g)
    && forall i, j | 0 <= i < j < |w| && j == i + 1 :: w[j] in g[w[i]]
  }

  /** A closed walk of two or more nodes along dependencies. */
  ghost predicate Cycle<T>(g: Graph<T>, c: seq<T>) {
    |c| >= 2 && Chain(g, c) && c[0] in g[c[|c| - 1]]
  }

  /** In `order` every node comes after all its dependencies. */
  ghost predicate Settled<T>(g: Graph<T>, order: seq<T>) {
    && (forall i, j | 0 <= i < j < |order| :: order[i] != order[j])
    && forall i | 0 <= i < |order| :: order[i] in g && forall d | d in g[order[i]] :: d in order[..i]
  }

  ghost function Position<T>(order: seq<T>, x: T): (i: nat)
    requires x in order
    ensures i < |order| && order[i] == x
  {
    var i :| 0 <= i < |order| && order[i] == x;
    i
  }

  lemma EarlierDependency<T>(g: Graph<T>, order: seq<T>, x: T, d: T)
    requires Settled(g, order) && x in order && x in g && d in g[x]
    ensures d in order && Position(order, d) < Position(order, x)
  {
    var i := Position(order, x);
    assert d in order[..i];
    var j :| 0 <= j < i && order[j] == d;
  }

  /** A graph with a settling order of all its nodes has no cycle. */
  lemma SettledHasNoCycle<T>(g: Graph<T>, order: seq<T>, c: seq<T>)
    requires Settled(g, order) && (forall n | n in g :: n in order)
    ensures !Cycle(g, c)
  {
    if Cycle(g, c) {
      CycleDescends(g, order, c, |c| - 1);
      EarlierDependency(g, order, c[|c| - 1], c[0]);
    }
  }

  lemma {:induction false} CycleDescends<T>(g: Graph<T>, order: seq<T>, c: seq<T>, k: nat)
    requires Settled(g, order) && (forall n | n in g :: n in order) && Cycle(g, c) && k < |c|
    ensures c[k] in order && c[0] in order && Position(order, c[k]) + k <= Position(order, c[0])
  {
    if k > 0 {
      CycleDescends(g, order, c, k - 1);
      EarlierDependency(g, order, c[k - 1], c[k]);
    }
  }

  /** Every stuck node waits for another stuck node. */
  ghost predicate Stuck<T>(g: Graph<T>, stuck: set<T>) {
    forall n | n in stuck :: n in g && Waits(g, stuck, n)
  }

  ghost predicate Waits<T>(g: Graph<T>, stuck: set<T>, n: T)
    requires n in g
  {
    g[n] * stuck != {}
  }

  /** Following stuck dependencies. */
  ghost function Walk<T>(g: Graph<T>, stuck: set<T>, start: T, k: nat): (w: seq<T>)
    requires Stuck(g, stuck) && start in stuck
    ensures |w| == k + 1 && Chain(g, w) && forall i | 0 <= i < |w| :: w[i] in stuck
  {
    if k == 0 then [start]
    else
      var w := Walk(g, stuck, start, k - 1);
      assert Waits(g, stuck, w[k - 1]);
      var d :| d in g[w[k - 1]] * stuck;
      w + [d]
  }

  lemma {:induction false} Pigeonhole<T>(w: seq<T>, s: set<T>) returns (i: nat, j: nat)
    requires |w| > |s| && forall k | 0 <= k < |w| :: w[k] in s
    ensures i < j < |w| && w[i] == w[j]
    decreases |w|
  {
    var last := w[|w| - 1];
    if last in w[..|w| - 1] {
      i :| 0 <= i < |w| - 1 && w[i] == last;
      j := |w| - 1;
    } else {
      assert |s - {last}| == |s| - 1;
      i, j := Pigeonhole(w[..|w| - 1], s - {last});
    }
  }

  /** Stuck nodes contain a cycle. */
  lemma StuckHasCycle<T>(g: Graph<T>, stuck: set<T>)
    requires Closed(g) && Stuck(g, stuck) && stuck != {}
    ensures exists c :: Cycle(g, c)
  {
    var start :| start in stuck;
    var w := Walk(g, stuck, start, |stuck|);
    var i, j := Pigeonhole(w, stuck);
    WalkHasCycle(g, w, i, j);
  }

  lemma WalkHasCycle<T>(g: Graph<T>, w: seq<T>, i: nat, j: nat)
    requires Closed(g) && Chain(g, w) && i < j < |w| && w[i] == w[j]
    ensures Cycle(g, w[i..j])
  {
    assert w[i + 1] in g[w[i]];
  }

  /** What is left of each node's dependencies once `done` have settled. */
  ghost predicate Remaining<T>(g: Graph<T>, remaining: Graph<T>, done: set<T>) {
    && remaining.Keys == g.Keys
    && forall n | n in g :: remaining[n] == g[n] - done
  }

  ghost predicate Distinct<T>(s: seq<T>) {
    forall i, j | 0 <= i < j < |s| :: s[i] != s[j]
  }

  ghost function Elements<T>(s: seq<T>): set<T> {
    set x | x in s
  }

  /** Those of `names` that wait for `d`. */
  ghost function Waiters<T>(g: Graph<T>, names: set<T>, d: T): set<T>
    requires names <= g.Keys
  {
    set n | n in names && d in g[n]
  }

  /** Who waits for each node. */
  method Dependents<T(==)>(g: Graph<T>) returns (dependents: Graph<T>)
    requires Closed(g)
    ensures dependents.Keys == g.Keys
    ensures forall d | d in g :: dependents[d] == Waiters(g, g.Keys, d)
  {
    dependents := map n | n in g :: {};
    var names := g.Keys;
    ghost var seen: set<T> := {};
    while names != {}
      invariant names + seen == g.Keys && dependents.Keys == g.Keys
      invariant forall d | d in g :: dependents[d] == Waiters(g, seen, d)
      decreases |names|
    {
      var name :| name in names;
      dependents := AddWaiter(g, seen, name, dependents);
      names, seen := names - {name}, seen + {name};
    }
    assert seen == g.Keys;
  }

  /** `name` waits for each of its dependencies. */
  method AddWaiter<T(==)>(g: Graph<T>, ghost seen: set<T>, name: T, dependents0: Graph<T>)
    returns (dependents: Graph<T>)
    requires Closed(g) && seen <= g.Keys && name in g && dependents0.Keys == g.Keys
    requires forall d | d in g :: dependents0[d] == Waiters(g, seen, d)
    ensures dependents.Keys == g.Keys
    ensures forall d | d in g :: dependents[d] == Waiters(g, seen + {name}, d)
  {
    dependents := dependents0;
    var deps := g[name];
    while deps != {}
      invariant deps <= g[name] && dependents.Keys == g.Keys
      invariant forall d | d in g ::
                  dependents[d] == if d in g[name] && d !in deps then dependents0[d] + {name} else dependents0[d]
      decreases |deps|
    {
      var dep :| dep in deps;
      deps := deps - {dep};
      dependents := dependents[dep := dependents[dep] + {name}];
    }
  }

  /** The ready list: what waits for nothing and is neither settled nor being settled. */
  ghost predicate ReadyList<T>(g: Graph<T>, remaining: Graph<T>, ready: seq<T>, out: set<T>)
    requires remaining.Keys == g.Keys
  {
    && Distinct(ready)
    && (forall n | n in ready :: n in g && n !in out && remaining[n] == {})
    && (forall n | n in g && n !in out && remaining[n] == {} :: n in ready)
  }

  /** Nodes that wait for nothing. */
  method InitiallyReady<T(==)>(g: Graph<T>) returns (ready: seq<T>)
    ensures ReadyList(g, g, ready, {})
  {
    ready := [];
    var names := g.Keys;
    while names != {}
      invariant names <= g.Keys && ReadyList(g, g, ready, names)
      decreases |names|
    {
      var name :| name in names;
      names := names - {name};
      if g[name] == {} { ready := ready + [name]; }
    }
  }

  /** Everything that has settled had its dependencies settled before. */
  ghost predicate DoneClosed<T>(g: Graph<T>, done: set<T>) {
    done <= g.Keys && forall n | n in done :: g[n] <= done
  }

  /** Settling `name`: it leaves the dependencies of its dependents, and those left with none become ready. */
  method Settle<T(==)>(ghost g: Graph<T>, ghost out: set<T>, name: T, dependents: set<T>, remaining0: Graph<T>,
                       ready0: seq<T>)
    returns (remaining: Graph<T>, ready: seq<T>)
    requires remaining0.Keys == g.Keys && ReadyList(g, remaining0, ready0, out)
    requires forall n | n in dependents :: n in g && n !in out && name in remaining0[n]
    ensures remaining.Keys == g.Keys
    ensures forall n | n in g :: remaining[n] == if n in dependents then remaining0[n] - {name} else remaining0[n]
    ensures ReadyList(g, remaining, ready, out)
  {
    remaining, ready := remaining0, ready0;
    var todo := dependents;
    while todo != {}
      invariant todo <= dependents && remaining.Keys == g.Keys
      invariant forall n | n in g ::
                  remaining[n] == if n in dependents && n !in todo then remaining0[n] - {name} else remaining0[n]
      invariant ReadyList(g, remaining, ready, out)
      decreases |todo|
    {
      var dependent :| dependent in todo;
      todo := todo - {dependent};
      remaining, ready := Discard(g, out, name, dependent, remaining, ready);
    }
  }

  /** One dependent loses one dependency, and is ready if that was its last. */
  method Discard<T(==)>(ghost g: Graph<T>, ghost out: set<T>, name: T, dependent: T, remaining0: Graph<T>,
                        ready0: seq<T>)
    returns (remaining: Graph<T>, ready: seq<T>)
    requires remaining0.Keys == g.Keys && ReadyList(g, remaining0, ready0, out)
    requires dependent in g && dependent !in out && name in remaining0[dependent]
    ensures remaining == remaining0[dependent := remaining0[dependent] - {name}]
    ensures ReadyList(g, remaining, ready, out)
  {
    remaining, ready := remaining0[dependent := remaining0[dependent] - {name}], ready0;
    if remaining[dependent] == {} {
      ready := ready + [dependent];
      Appended(g, remaining0, remaining, ready0, out, dependent);
    }
  }

  lemma Discarded<T>(g: Graph<T>, remaining0: Graph<T>, remaining: Graph<T>, done: set<T>, name: T)
    requires Remaining(g, remaining0, done) && remaining.Keys == g.Keys && name in g
    requires forall n | n in g ::
               remaining[n] == if n in Waiters(g, g.Keys, name) then remaining0[n] - {name} else remaining0[n]
    ensures Remaining(g, remaining, done + {name})
  {
  }

  lemma Appended<T>(g: Graph<T>, before: Graph<T>, after: Graph<T>, ready0: seq<T>, out: set<T>, x: T)
    requires before.Keys == g.Keys && x in g && x !in out && before[x] != {} && after == before[x := {}]
    requires ReadyList(g, before, ready0, out)
    ensures ReadyList(g, after, ready0 + [x], out)
  {
    assert x !in ready0;
    var ready := ready0 + [x];
    assert forall n | n in g && n != x :: after[n] == before[n];
    assert forall n | n in ready0 :: n in ready && n != x;
    assert x in ready;
    assert forall i | 0 <= i < |ready0| :: ready0[i] in ready0;
    assert Distinct(ready);
    assert forall n | n in g && n !in out && after[n] == {} :: n in ready;
    assert forall n | n in ready :: n in g && n !in out;
    assert forall n | n in ready :: after[n] == {};
  }

  /** What holds whenever the next ready node is taken: `order` has settled, everything else waits or is ready. */
  ghost predicate Progress<T>(g: Graph<T>, remaining: Graph<T>, ready: seq<T>, order: seq<T>) {
    && Settled(g, order) && DoneClosed(g, Elements(order))
    && Remaining(g, remaining, Elements(order)) && ReadyList(g, remaining, ready, Elements(order))
  }

  lemma Begun<T>(g: Graph<T>, ready: seq<T>)
    requires ReadyList(g, g, ready, {})
    ensures Progress(g, g, ready, [])
  {
    assert Elements<T>([]) == {};
  }

  lemma Popped<T>(g: Graph<T>, remaining: Graph<T>, all: seq<T>, order: seq<T>)
    requires Progress(g, remaining, all, order) && all != []
    ensures var name, done := all[|all| - 1], Elements(order);
            && name in g && name !in done && remaining[name] == {}
            && DoneClosed(g, done) && Remaining(g, remaining, done)
            && ReadyList(g, remaining, all[..|all| - 1], done + {name})
  {
    var name, ready, done := all[|all| - 1], all[..|all| - 1], Elements(order);
    assert all[|ready|] == name && name in all;
    forall n ensures n in ready <==> n in all && n != name {
      if n in ready {
        var i :| 0 <= i < |ready| && ready[i] == n;
        assert all[i] == n;
      }
    }
    assert forall i, j | 0 <= i < j < |ready| :: all[i] != all[j];
    forall n | n in ready ensures n in g && n !in done + {name} && remaining[n] == {} {
      assert n in all;
    }
    forall n | n in g && n !in done + {name} && remaining[n] == {} ensures n in ready {
      assert n in all;
    }
  }

  lemma SettledMore<T>(g: Graph<T>, before: Graph<T>, remaining: Graph<T>, ready: seq<T>, order: seq<T>, name: T)
    requires Settled(g, order) && DoneClosed(g, Elements(order)) && Remaining(g, before, Elements(order))
    requires name in g && name !in Elements(order) && before[name] == {} && remaining.Keys == g.Keys
    requires forall n | n in g ::
               remaining[n] == if n in Waiters(g, g.Keys, name) then before[n] - {name} else before[n]
    requires ReadyList(g, remaining, ready, Elements(order) + {name})
    ensures Progress(g, remaining, ready, order + [name])
    ensures g.Keys - Elements(order + [name]) < g.Keys - Elements(order)
  {
    OrderExtends(g, before, order, name);
    Discarded(g, before, remaining, Elements(order), name);
    assert name in g.Keys - Elements(order);
  }

  lemma WaitersNotDone<T>(g: Graph<T>, remaining: Graph<T>, done: set<T>, name: T)
    requires Closed(g) && DoneClosed(g, done) && Remaining(g, remaining, done) && name in g && name !in done
    ensures forall n | n in Waiters(g, g.Keys, name) :: n in g && n !in done + {name} && name in remaining[n]
  {
  }

  lemma OrderExtends<T>(g: Graph<T>, remaining: Graph<T>, order: seq<T>, name: T)
    requires Settled(g, order) && DoneClosed(g, Elements(order)) && Remaining(g, remaining, Elements(order))
    requires name in g && name !in Elements(order) && remaining[name] == {}
    ensures Settled(g, order + [name]) && DoneClosed(g, Elements(order + [name]))
    ensures Elements(order + [name]) == Elements(order) + {name}
  {
    var order' := order + [name];
    assert g[name] - Elements(order) == {};
    forall i, d | 0 <= i < |order'| && order'[i] in g && d in g[order'[i]] ensures d in order'[..i] {
      assert order'[..i] == order[..i];
      if i < |order| {
        assert order'[i] == order[i] && d in order[..i];
      } else {
        assert order'[i] == name && remaining[name] == g[name] - Elements(order);
        assert d in g[name] && d !in remaining[name];
        assert d in Elements(order);
        assert order[..i] == order;
      }
    }
  }

  lemma {:induction false} CountDistinct<T>(s: seq<T>)
    requires Distinct(s)
    ensures |Elements(s)| == |s|
  {
    if s != [] {
      var front, last := s[..|s| - 1], s[|s| - 1];
      CountDistinct(front);
      assert Elements(s) == Elements(front) + {last};
    } else {
      assert Elements(s) == {};
    }
  }

  lemma SubsetSameSize<T>(a: set<T>, b: set<T>)
    requires a <= b
    ensures |a| <= |b| && (|a| == |b| <==> a == b)
  {
    assert b == a + (b - a);
  }

  /** When nothing is ready any more, what remains waits for something that remains. */
  lemma Unready<T>(g: Graph<T>, remaining: Graph<T>, order: seq<T>, stuck: set<T>)
    requires Closed(g) && Progress(g, remaining, [], order) && stuck == set n | n in remaining && remaining[n] != {}
    ensures stuck == g.Keys - Elements(order) && Stuck(g, stuck)
    ensures |order| == |remaining| <==> stuck == {}
  {
    CountDistinct(order);
    SubsetSameSize(Elements(order), remaining.Keys);
    forall n | n in stuck ensures Waits(g, stuck, n) {
      var d :| d in remaining[n];
      assert d in g[n] * stuck;
    }
  }

  /** The latest ready node settles. */
  method SettleNext<T(==)>(ghost g: Graph<T>, dependents: Graph<T>, remaining0: Graph<T>, ready0: seq<T>,
                           ghost order: seq<T>)
    returns (remaining: Graph<T>, ready: seq<T>)
    requires Closed(g) && Progress(g, remaining0, ready0, order) && ready0 != []
    requires dependents.Keys == g.Keys && forall d | d in g :: dependents[d] == Waiters(g, g.Keys, d)
    ensures Progress(g, remaining, ready, order + [ready0[|ready0| - 1]])
    ensures g.Keys - Elements(order + [ready0[|ready0| - 1]]) < g.Keys - Elements(order)
  {
    var name := ready0[|ready0| - 1];
    Popped(g, remaining0, ready0, order);
    WaitersNotDone(g, remaining0, Elements(order), name);
    remaining, ready := Settle(g, Elements(order) + {name}, name, dependents[name], remaining0, ready0[..|ready0| - 1]);
    SettledMore(g, remaining0, remaining, ready, order, name);
  }

  /**
   * _check_acyclic: settles what can be settled, latest ready first. It accepts exactly the graphs
   * without a cycle, and what it reports otherwise are the nodes that waiting never ends for.
   */
  method CheckAcyclic<T(==)>(g: Graph<T>) returns (ok: bool, stuck: set<T>)
    requires Closed(g)
    ensures ok <==> !exists c :: Cycle(g, c)
    ensures ok <==> stuck == {}
    ensures Stuck(g, stuck)
    ensures exists order :: Settled(g, order) && Elements(order) == g.Keys - stuck
  {
    var remaining := g;
    var dependents := Dependents(g);
    var ready := InitiallyReady(g);
    var settled := 0;
    ghost var order: seq<T> := [];
    Begun(g, ready);
    while ready != []
      invariant Progress(g, remaining, ready, order) && settled == |order|
      decreases g.Keys - Elements(order)
    {
      settled := settled + 1;
      ghost var name := ready[|ready| - 1];
      remaining, ready := SettleNext(g, dependents, remaining, ready, order);
      order := order + [name];
    }
    stuck := set n | n in remaining && remaining[n] != {};
    ok := settled == |remaining|;
    Unready(g, remaining, order, stuck);
    Verdict(g, order, stuck);
  }

  lemma Verdict<T>(g: Graph<T>, order: seq<T>, stuck: set<T>)
    requires Closed(g) && Settled(g, order) && stuck == g.Keys - Elements(order) && Stuck(g, stuck)
    ensures stuck == {} <==> !exists c :: Cycle(g, c)
    ensures exists order :: Settled(g, order) && Elements(order) == g.Keys - stuck
  {
    assert Elements(order) == g.Keys - stuck;
    if stuck == {} {
      forall c ensures !Cycle(g, c) { SettledHasNoCycle(g, order, c); }
    } else {
      StuckHasCycle(g, stuck);
    }
  }
}
