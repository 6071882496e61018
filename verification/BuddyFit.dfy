/** Which wholly free node a search takes, told by the occupied nodes alone: the best fit, left on ties. */
module BuddyFit {
  import opened BuddyLayout
  import opened BuddyStatus

  // ---------------------------------------------------------------- the statuses an occupied set calls for

  ghost function Level(order: nat, live: set<nat>, i: nat): nat
    requires 0 < i < Pow2(order)
    decreases Pow2(order) - i
  {
    if i in live then Width(order, i)
    else if 2 * i + 1 >= Pow2(order) then 0
    else Join(Level(order, live, 2 * i), Level(order, live, 2 * i + 1))
  }

  lemma {:induction false} LevelIsStatus(order: nat, live: set<nat>, st: seq<nat>, i: nat)
    requires Consistent(order, live, st) && 0 < i < |st|
    ensures st[i] == Level(order, live, i)
    decreases |st| - i
  {
    assert LocalOk(order, live, st, i);
    if 2 * i + 1 < |st| {
      LevelIsStatus(order, live, st, 2 * i);
      LevelIsStatus(order, live, st, 2 * i + 1);
    }
  }

  /** Every set of occupied nodes none of which lies above another has its statuses. */
  lemma Statuses(order: nat, live: set<nat>) returns (st: seq<nat>)
    requires Antichain(order, live)
    ensures Consistent(order, live, st)
  {
    st := seq(Pow2(order), i requires 0 <= i < Pow2(order) => if i == 0 then 0 else Level(order, live, i));
    forall i | 0 < i < |st| ensures LocalOk(order, live, st, i) {}
  }

  lemma {:induction false} LevelElsewhere(order: nat, live: set<nat>, x: nat, i: nat)
    requires 0 < i < Pow2(order) && !InSubtree(i, x)
    ensures Level(order, live + {x}, i) == Level(order, live, i)
    decreases Pow2(order) - i
  {
    assert InSubtree(i, i);
    SubtreeSplit(i, x);
    if 2 * i + 1 < Pow2(order) {
      LevelElsewhere(order, live, x, 2 * i);
      LevelElsewhere(order, live, x, 2 * i + 1);
    }
  }

  lemma {:induction false} LevelBound(order: nat, live: set<nat>, i: nat)
    requires 0 < i < Pow2(order)
    ensures Level(order, live, i) <= Width(order, i)
    decreases Pow2(order) - i
  {
    if 2 * i + 1 < Pow2(order) {
      ChildDepth(order, i);
      LevelBound(order, live, 2 * i);
      LevelBound(order, live, 2 * i + 1);
    }
  }

  /** Occupying a node raises the statuses above it, or leaves them, and none of them is zero then. */
  lemma {:induction false} LevelGrows(order: nat, live: set<nat>, x: nat, i: nat)
    requires 0 < i && InSubtree(i, x) && x < Pow2(order) && Clear(live, x)
    ensures 0 < Level(order, live + {x}, i) && Level(order, live, i) <= Level(order, live + {x}, i)
    decreases Pow2(order) - i
  {
    assert i <= x;
    hide *;
    LevelUnfolds(order, live, i);
    LevelUnfolds(order, live + {x}, i);
    if i == x {
      LevelBound(order, live, x);
    } else {
      ClearAbove(live, i, x);
      var c := ChildTowards(i, x);
      LevelGrows(order, live, x, c);
      LevelElsewhere(order, live, x, Sibling(c));
      JoinGrows(Level(order, live, 2 * i), Level(order, live + {x}, 2 * i),
                Level(order, live, 2 * i + 1), Level(order, live + {x}, 2 * i + 1));
    }
  }

  lemma LevelUnfolds(order: nat, live: set<nat>, i: nat)
    requires 0 < i < Pow2(order)
    ensures Level(order, live, i)
            == if i in live then Width(order, i)
               else if 2 * i + 1 >= Pow2(order) then 0
               else Join(Level(order, live, 2 * i), Level(order, live, 2 * i + 1))
    ensures 0 < Width(order, i) && (2 * i < Pow2(order) ==> 2 * i + 1 < Pow2(order))
  {
    EvenPow(order);
  }

  lemma EvenPow(order: nat)
    ensures order > 0 ==> Pow2(order) == 2 * Pow2(order - 1)
    ensures order == 0 ==> Pow2(order) == 1
  {
  }

  lemma JoinGrows(l: nat, l': nat, r: nat, r': nat)
    requires l <= l' && r <= r' && (0 < l' || 0 < r')
    ensures Join(l, r) <= Join(l', r') && 0 < Join(l', r')
  {
  }

  lemma {:induction false} ClearAbove(live: set<nat>, i: nat, x: nat)
    requires InSubtree(i, x) && Clear(live, x)
    ensures Clear(live, i) && i !in live
    decreases x
  {
    if i < x { ClearAbove(live, i, x / 2); }
  }

  /** The child of `i` under which `x` lies; it does not lie under the other one. */
  lemma ChildTowards(i: nat, x: nat) returns (c: nat)
    requires 0 < i && InSubtree(i, x) && i != x
    ensures (c == 2 * i || c == 2 * i + 1) && InSubtree(c, x) && !InSubtree(Sibling(c), x)
    ensures 2 * i <= x && (Sibling(c) == 2 * i || Sibling(c) == 2 * i + 1)
  {
    SubtreeSplit(i, x);
    c := if InSubtree(2 * i, x) then 2 * i else 2 * i + 1;
    if InSubtree(2 * i, x) && InSubtree(2 * i + 1, x) {
      BothChildren(i, x);
    }
  }

  lemma {:induction false} BothChildren(i: nat, x: nat)
    requires 0 < i
    ensures !(InSubtree(2 * i, x) && InSubtree(2 * i + 1, x))
    decreases x
  {
    if InSubtree(2 * i, x) && InSubtree(2 * i + 1, x) {
      if x == 2 * i + 1 {
        assert x / 2 == i && !InSubtree(2 * i, i);
      } else {
        BothChildren(i, x / 2);
      }
    }
  }

  // ---------------------------------------------------------------- the best fit

  /** A parent's status after a node under one child has been occupied. */
  lemma ParentLevel(order: nat, live: set<nat>, i: nat, c: nat, x: nat)
    requires 0 < i && 2 * i + 1 < Pow2(order) && (c == 2 * i || c == 2 * i + 1) && x < Pow2(order)
    requires InSubtree(c, x) && !InSubtree(Sibling(c), x) && Clear(live, x)
    ensures 0 < Level(order, live + {x}, c) && Level(order, live, c) <= Level(order, live + {x}, c)
    ensures var side, other := Level(order, live + {x}, c), Level(order, live, Sibling(c));
            Level(order, live + {x}, i) == 1 + if side <= other then side else other
  {
    hide Clear, Level, Join, Depth, Pow2;
    SubtreeSplit(i, x);
    if x == i { SubtreeDepth(c, x); }
    ClearAbove(live, i, x);
    LevelGrows(order, live, x, c);
    LevelElsewhere(order, live, x, Sibling(c));
    JoinLevels(order, live + {x}, i);
  }

  lemma JoinLevels(order: nat, live: set<nat>, i: nat)
    requires 0 < i && 2 * i + 1 < Pow2(order) && i !in live
    ensures var l, r := Level(order, live, 2 * i), Level(order, live, 2 * i + 1);
            0 < l || 0 < r ==> Level(order, live, i) == 1 + if l <= r then l else r
  {
  }

  /**
   * Among all wholly free nodes of a row under `i`, the search takes one that leaves the status of
   * `i` as low as any of them would.
   */
  lemma {:induction false} BestFit(order: nat, live: set<nat>, st: seq<nat>, i: nat, k: nat, j: nat)
    requires Consistent(order, live, st) && 0 < i < |st| && k < Width(order, i) && Clear(live, i / 2)
    requires FreeAt(live, i, k, j)
    ensures st[i] <= k && FreeAt(live, i, k, Descend(order, st, i, k))
    ensures j < Pow2(order) && Descend(order, st, i, k) < Pow2(order)
    ensures Level(order, live + {Descend(order, st, i, k)}, i) <= Level(order, live + {j}, i)
    decreases k
  {
    var d := Descend(order, st, i, k);
    StatusMeaning(order, live, st, i, k);
    DescendFindsFree(order, live, st, i, k);
    InRow(order, i, k, d);
    InRow(order, i, k, j);
    if k == 0 {
      SubtreeDepth(i, d);
      SubtreeDepth(i, j);
    } else {
      BestFitBelow(order, live, st, i, k, j);
    }
  }

  lemma InRow(order: nat, i: nat, k: nat, j: nat)
    requires 0 < i < Pow2(order) && k < Width(order, i) && 0 < j && Depth(j) == Depth(i) + k
    ensures j < Pow2(order)
  {
    DepthBelow(order, j);
  }

  lemma {:induction false} BestFitBelow(order: nat, live: set<nat>, st: seq<nat>, i: nat, k: nat, j: nat)
    requires Consistent(order, live, st) && 0 < i < |st| && 0 < k < Width(order, i) && Clear(live, i / 2)
    requires FreeAt(live, i, k, j) && st[i] <= k && FreeAt(live, i, k, Descend(order, st, i, k))
    requires j < Pow2(order) && Descend(order, st, i, k) < Pow2(order)
    ensures Level(order, live + {Descend(order, st, i, k)}, i) <= Level(order, live + {j}, i)
    decreases k, 0
  {
    hide LocalOk, Antichain, Clear, Level, Depth, Pow2, InSubtree, NoneBelow, Width, Descend;
    ChildrenInTree(order, i);
    DescendStep(order, st, i, k - 1);
    var d, p := Descend(order, st, i, k), Preferred(st, i, k - 1);
    ClearAbove(live, i, j);
    var c := ChildTowards(i, j);
    ChildStatuses(order, live, st, i, k - 1);
    assert FreeAt(live, c, k - 1, j) && HasFreeAt(live, c, k - 1);
    BestFitSide(order, live, st, i, k, c, d);
    ParentLevel(order, live, i, c, j);
    ParentLevel(order, live, i, p, d);
    if c == p { BestFit(order, live, st, p, k - 1, j); }
  }

  lemma ChildStatuses(order: nat, live: set<nat>, st: seq<nat>, i: nat, k: nat)
    requires Consistent(order, live, st) && 0 < i && 2 * i + 1 < |st| && k + 1 < Width(order, i) && Clear(live, i)
    requires Width(order, 2 * i) == Width(order, 2 * i + 1) == Width(order, i) - 1
    ensures st[2 * i] == Level(order, live, 2 * i) && st[2 * i + 1] == Level(order, live, 2 * i + 1)
    ensures st[2 * i] <= k <==> HasFreeAt(live, 2 * i, k)
    ensures st[2 * i + 1] <= k <==> HasFreeAt(live, 2 * i + 1, k)
  {
    assert (2 * i) / 2 == i && (2 * i + 1) / 2 == i;
    StatusMeaning(order, live, st, 2 * i, k);
    StatusMeaning(order, live, st, 2 * i + 1, k);
    LevelIsStatus(order, live, st, 2 * i);
    LevelIsStatus(order, live, st, 2 * i + 1);
  }

  /** The search goes on under the child it prefers. */
  lemma BestFitSide(order: nat, live: set<nat>, st: seq<nat>, i: nat, k: nat, c: nat, d: nat)
    requires Consistent(order, live, st) && 0 < i && 2 * i + 1 < |st| && 0 < k < Width(order, i) && Clear(live, i)
    requires Width(order, 2 * i) == Width(order, 2 * i + 1) == Width(order, i) - 1
    requires st[2 * i] <= k - 1 || st[2 * i + 1] <= k - 1
    requires d == Descend(order, st, Preferred(st, i, k - 1), k - 1)
    ensures FreeAt(live, Preferred(st, i, k - 1), k - 1, d) && !InSubtree(Sibling(Preferred(st, i, k - 1)), d)
  {
    var p := Preferred(st, i, k - 1);
    assert p / 2 == i && st[p] <= k - 1;
    DescendFindsFree(order, live, st, p, k - 1);
    BothChildren(i, d);
  }

  /**
   * Whatever row still has a wholly free node after some node `k` levels down is occupied, still has
   * one after `d` is.
   */
  ghost predicate LeavesMost(order: nat, live: set<nat>, k: nat, d: nat) {
    forall j, m: nat | FreeAt(live, 1, k, j) && m < order && HasFreeAt(live + {j}, 1, m) ::
      HasFreeAt(live + {d}, 1, m)
  }

  lemma SearchLeavesMost(order: nat, live: set<nat>, st: seq<nat>, k: nat)
    requires Consistent(order, live, st) && k < order && 1 < |st|
    requires Width(order, 1) == order && st[1] <= k
    ensures LeavesMost(order, live, k, Descend(order, st, 1, k))
  {
    var d := Descend(order, st, 1, k);
    DescendFindsFree(order, live, st, 1, k);
    forall j, m: nat | FreeAt(live, 1, k, j) && m < order && HasFreeAt(live + {j}, 1, m)
      ensures HasFreeAt(live + {d}, 1, m)
    {
      BestFit(order, live, st, 1, k, j);
      FreeAfter(order, live, d, m);
      FreeAfter(order, live, j, m);
    }
  }

  /** Which rows still have a free node after one more node is occupied. */
  lemma FreeAfter(order: nat, live: set<nat>, x: nat, m: nat)
    requires Antichain(order, live) && 0 < x < Pow2(order) && WhollyFree(live, x) && 0 < order && m < order
    ensures 1 < Pow2(order)
    ensures HasFreeAt(live + {x}, 1, m) <==> Level(order, live + {x}, 1) <= m
  {
    RootWidth(order);
    AntichainAdd(order, live, x);
    var st := Statuses(order, live + {x});
    StatusMeaning(order, live + {x}, st, 1, m);
    LevelIsStatus(order, live + {x}, st, 1);
  }

  // ---------------------------------------------------------------- ties

  /**
   * Looking for a node `k` levels below the children of `a`: the left child has one, and unless the
   * right child has none, no larger free node than the right child has.
   */
  ghost predicate TakesLeft(live: set<nat>, a: nat, k: int) {
    && 0 <= k && HasFreeAt(live, 2 * a, k)
    && (HasFreeAt(live, 2 * a + 1, k) ==>
          forall m: nat | m <= k && HasFreeAt(live, 2 * a, m) :: HasFreeAt(live, 2 * a + 1, m))
  }

  /** At every node between `i` and `d` the way to `d` is the one just described. */
  ghost predicate OnPath(live: set<nat>, i: nat, d: nat) {
    forall a: nat {:trigger InSubtree(i, a), InSubtree(a, d)} | InSubtree(i, a) && InSubtree(a, d) && a != d ::
      InSubtree(2 * a, d) <==> TakesLeft(live, a, Depth(d) - Depth(a) - 1)
  }

  lemma {:induction false} SearchOnPath(order: nat, live: set<nat>, st: seq<nat>, i: nat, k: nat)
    requires Consistent(order, live, st) && 0 < i < |st| && k < Width(order, i) && Clear(live, i / 2) && st[i] <= k
    ensures OnPath(live, i, Descend(order, st, i, k))
    decreases k
  {
    var d := Descend(order, st, i, k);
    DescendFindsFree(order, live, st, i, k);
    if k == 0 {
      forall a: nat | InSubtree(i, a) && InSubtree(a, d) ensures a == d { SubtreeDepth(i, a); SubtreeDepth(a, d); }
    } else {
      ChildrenInTree(order, i);
      DescendStep(order, st, i, k - 1);
      var p := Preferred(st, i, k - 1);
      ClearAbove(live, i, d);
      assert LocalOk(order, live, st, i);
      SearchOnPathBelow(order, live, st, i, k, p, d);
    }
  }

  lemma {:induction false} SearchOnPathBelow(order: nat, live: set<nat>, st: seq<nat>, i: nat, k: nat, p: nat, d: nat)
    requires Consistent(order, live, st) && 0 < i && 2 * i + 1 < |st| && 0 < k < Width(order, i) && Clear(live, i)
    requires Width(order, 2 * i) == Width(order, 2 * i + 1) == Width(order, i) - 1
    requires p == Preferred(st, i, k - 1) && d == Descend(order, st, p, k - 1) && FreeAt(live, i, k, d)
    requires st[2 * i] <= k - 1 || st[2 * i + 1] <= k - 1
    ensures OnPath(live, i, d)
    decreases k, 0
  {
    hide LocalOk, Antichain, Clear, Pow2, NoneBelow, Width, Descend, TakesLeft, WhollyFree;
    BestFitSide(order, live, st, i, k, p, d);
    SearchOnPath(order, live, st, p, k - 1);
    LeftByStatus(order, live, st, i, k - 1);
    forall a: nat | InSubtree(i, a) && InSubtree(a, d) && a != d
      ensures InSubtree(2 * a, d) <==> TakesLeft(live, a, Depth(d) - Depth(a) - 1)
    {
      if a != i { BetweenChild(i, p, a, d); }
    }
  }

  /** What lies between `i` and a node under its child `p` lies under `p`. */
  lemma BetweenChild(i: nat, p: nat, a: nat, d: nat)
    requires 0 < i && (p == 2 * i || p == 2 * i + 1) && InSubtree(i, a) && a != i && InSubtree(a, d) && InSubtree(p, d)
    ensures InSubtree(p, a)
  {
    SubtreeSplit(i, a);
    BothChildren(i, d);
    if InSubtree(2 * i, a) { Through(2 * i, a, d); } else { Through(2 * i + 1, a, d); }
  }

  lemma {:induction false} Through(i: nat, a: nat, d: nat)
    requires InSubtree(i, a) && InSubtree(a, d)
    ensures InSubtree(i, d)
    decreases d
  {
    if a < d { Through(i, a, d / 2); }
  }

  lemma LeftByStatus(order: nat, live: set<nat>, st: seq<nat>, i: nat, k: nat)
    requires Consistent(order, live, st) && 0 < i && 2 * i + 1 < |st| && k + 1 < Width(order, i) && Clear(live, i)
    requires Width(order, 2 * i) == Width(order, 2 * i + 1) == Width(order, i) - 1
    requires st[2 * i] <= k || st[2 * i + 1] <= k
    ensures Preferred(st, i, k) == 2 * i <==> TakesLeft(live, i, k)
  {
    var l, r := 2 * i, 2 * i + 1;
    forall m: nat | m <= k
      ensures (st[l] <= m <==> HasFreeAt(live, l, m)) && (st[r] <= m <==> HasFreeAt(live, r, m))
    {
      ChildStatuses(order, live, st, i, m);
    }
    if st[l] <= k && st[l] < st[r] { assert HasFreeAt(live, l, st[l]) && !HasFreeAt(live, r, st[l]); }
  }

  /** No two nodes of a row under `a` are on the path. */
  lemma {:induction false} PathUnique(live: set<nat>, i: nat, a: nat, d: nat, e: nat)
    requires InSubtree(i, a) && InSubtree(a, d) && InSubtree(a, e) && Depth(d) == Depth(e)
    requires OnPath(live, i, d) && OnPath(live, i, e)
    ensures d == e
    decreases Depth(d) - Depth(a)
  {
    SubtreeDepth(a, d);
    SubtreeDepth(a, e);
    if a != d {
      SubtreeSplit(a, d);
      SubtreeSplit(a, e);
      BothChildren(a, d);
      BothChildren(a, e);
      var c := if InSubtree(2 * a, d) then 2 * a else 2 * a + 1;
      assert InSubtree(a, c);
      Through(i, a, c);
      SubtreeDepth(c, d);
      PathUnique(live, i, c, d, e);
    }
  }
}
