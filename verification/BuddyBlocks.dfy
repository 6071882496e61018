/** The memory each node of the buddy tree stands for, in units of the smallest block. */
module BuddyBlocks {
  import opened BuddyLayout
  import opened BuddyStatus

  /** Number of units under node `i`. */
  function Span(order: nat, i: nat): nat
    requires 0 < i < Pow2(order)
  {
    Pow2(Width(order, i) - 1)
  }

  /** First unit under node `i`. */
  function First(order: nat, i: nat): nat
    requires 0 < i < Pow2(order)
  {
    if i == 1 then 0 else First(order, i / 2) + if i % 2 == 1 then Span(order, i) else 0
  }

  function End(order: nat, i: nat): nat
    requires 0 < i < Pow2(order)
  {
    First(order, i) + Span(order, i)
  }

  lemma SpanHalves(order: nat, i: nat)
    requires 1 < i < Pow2(order)
    ensures Span(order, i / 2) == 2 * Span(order, i)
    ensures i % 2 == 0 ==> First(order, i) == First(order, i / 2)
    ensures i % 2 == 1 ==> End(order, i) == End(order, i / 2)
  {
    DepthInTree(order, i);
    Pow2Double(Width(order, i) - 1);
  }

  /** A node's memory lies inside the memory of every node above it. */
  lemma {:induction false} Nested(order: nat, i: nat, j: nat)
    requires InSubtree(i, j) && j < Pow2(order)
    ensures First(order, i) <= First(order, j) && End(order, j) <= End(order, i)
    decreases j
  {
    if i < j {
      SpanHalves(order, j);
      Nested(order, i, j / 2);
    }
  }

  /** Nodes that do not lie above one another stand for disjoint memory. */
  lemma {:induction false} Apart(order: nat, i: nat, j: nat)
    requires 0 < i < Pow2(order) && 0 < j < Pow2(order)
    requires !InSubtree(i, j) && !InSubtree(j, i)
    ensures End(order, i) <= First(order, j) || End(order, j) <= First(order, i)
    decreases i + j
  {
    RootAboveAll(i);
    RootAboveAll(j);
    if Depth(i) > Depth(j) {
      SpanHalves(order, i);
      if InSubtree(i / 2, j) { SubtreeDepth(i / 2, j); }
      Apart(order, i / 2, j);
    } else if Depth(j) > Depth(i) {
      SpanHalves(order, j);
      if InSubtree(j / 2, i) { SubtreeDepth(j / 2, i); }
      Apart(order, i, j / 2);
    } else {
      SpanHalves(order, i);
      SpanHalves(order, j);
      if i / 2 != j / 2 {
        if InSubtree(i / 2, j / 2) { SubtreeDepth(i / 2, j / 2); }
        if InSubtree(j / 2, i / 2) { SubtreeDepth(j / 2, i / 2); }
        Apart(order, i / 2, j / 2);
      }
    }
  }

  lemma {:induction false} RootAboveAll(i: nat)
    requires 0 < i
    ensures InSubtree(1, i)
  {
    if i > 1 { RootAboveAll(i / 2); }
  }

  /** address_for_position: block size times the index in the row. */
  lemma {:induction false} RowFirst(order: nat, i: nat)
    requires 0 < i < Pow2(order)
    ensures i >= Pow2(Depth(i) - 1)
    ensures First(order, i) == (i - Pow2(Depth(i) - 1)) * Span(order, i)
  {
    hide *;
    DepthBounds(i);
    FirstUnfolds(order, i);
    if i > 1 {
      RowFirst(order, i / 2);
      SpanHalves(order, i);
      DepthBounds(i / 2);
      Pow2Double(Depth(i / 2) - 1);
      var row := i / 2 - Pow2(Depth(i / 2) - 1);
      RowChild(row, i - Pow2(Depth(i) - 1), Span(order, i), Span(order, i / 2), i % 2);
    }
  }

  lemma FirstUnfolds(order: nat, i: nat)
    requires 0 < i < Pow2(order)
    ensures i == 1 ==> First(order, i) == 0 && Depth(i) == 1 && Pow2(0) == 1
    ensures i > 1 ==> First(order, i) == First(order, i / 2) + if i % 2 == 1 then Span(order, i) else 0
    ensures i > 1 ==> Depth(i) == Depth(i / 2) + 1
  {
  }

  lemma RowChild(row: nat, child: nat, s: nat, twice: nat, bit: nat)
    requires bit < 2 && child == 2 * row + bit && twice == 2 * s
    ensures child * s == row * twice + if bit == 1 then s else 0
  {
    assert child * s == (2 * row) * s + bit * s;
  }

  lemma LeafFirst(order: nat, i: nat)
    requires 0 < order && Pow2(order - 1) <= i < Pow2(order)
    ensures Depth(i) == order && Span(order, i) == 1 && First(order, i) == i - Pow2(order - 1)
  {
    DepthUnique(i, order);
    RowFirst(order, i);
  }

  /** The leaf of unit `u` lies under exactly the nodes whose memory contains `u`. */
  lemma LeafUnder(order: nat, i: nat, u: nat)
    requires 0 < order && 0 < i < Pow2(order) && u < Pow2(order - 1)
    ensures InSubtree(i, Pow2(order - 1) + u) <==> First(order, i) <= u < End(order, i)
  {
    var x := Pow2(order - 1) + u;
    Pow2Double(order - 1);
    LeafFirst(order, x);
    DepthInTree(order, i);
    if InSubtree(i, x) {
      Nested(order, i, x);
    } else if InSubtree(x, i) {
      SubtreeDepth(x, i);
    } else {
      Apart(order, i, x);
    }
  }

  /** Two nodes above a common node lie above one another. */
  lemma {:induction false} SameChain(i: nat, j: nat, x: nat)
    requires InSubtree(i, x) && InSubtree(j, x)
    ensures InSubtree(i, j) || InSubtree(j, i)
    decreases x
  {
    if i < x && j < x { SameChain(i, j, x / 2); }
  }

  lemma {:induction false} ClearMeans(live: set<nat>, i: nat)
    ensures Clear(live, i) <==> forall j | j in live && 0 < j :: !InSubtree(j, i)
  {
    if i > 0 { ClearMeans(live, i / 2); }
  }

  /** Units that belong to occupied nodes, under node `i` standing `h` rows high. */
  ghost function UsedUnits(live: set<nat>, i: nat, h: nat): nat
    decreases h
  {
    if h == 0 then 0
    else if i in live then Pow2(h - 1)
    else UsedUnits(live, 2 * i, h - 1) + UsedUnits(live, 2 * i + 1, h - 1)
  }

  /** What the free-size walk adds up under `i`. */
  function FreeUnits(order: nat, st: seq<nat>, i: nat): nat
    requires |st| == Pow2(order) && 0 < i < |st|
    decreases |st| - i
  {
    if st[i] == Width(order, i) then 0
    else if st[i] == 0 then Span(order, i)
    else if 2 * i + 1 >= |st| then 0
    else FreeUnits(order, st, 2 * i) + FreeUnits(order, st, 2 * i + 1)
  }

  lemma {:induction false} UsedNone(live: set<nat>, i: nat, h: nat)
    requires 0 < i && NoneBelow(live, i)
    ensures UsedUnits(live, i, h) == 0
    decreases h
  {
    NoneBelowSplit(live, i);
    if h > 0 {
      UsedNone(live, 2 * i, h - 1);
      UsedNone(live, 2 * i + 1, h - 1);
    }
  }

  lemma ClearBelow(live: set<nat>, i: nat)
    requires 0 < i && Clear(live, i / 2) && i !in live
    ensures Clear(live, i)
  {
  }

  /** Free and occupied units make up the whole. */
  lemma {:induction false} FreePlusUsed(order: nat, live: set<nat>, st: seq<nat>, i: nat)
    requires Consistent(order, live, st) && 0 < i < |st| && Clear(live, i / 2)
    ensures FreeUnits(order, st, i) + UsedUnits(live, i, Width(order, i)) == Span(order, i)
    ensures st[i] == Width(order, i) ==> UsedUnits(live, i, Width(order, i)) == Span(order, i)
    decreases |st| - i
  {
    hide Pow2, Depth, Clear, NoneBelow, Antichain;
    assert LocalOk(order, live, st, i);
    LeafWidth(order, i);
    if i !in live {
      if st[i] == 0 {
        ZeroIffNoneBelow(order, live, st, i);
        UsedNone(live, i, Width(order, i));
      } else {
        ChildDepth(order, i);
        SpanHalves(order, 2 * i);
        SpanHalves(order, 2 * i + 1);
        assert (2 * i) / 2 == i && (2 * i + 1) / 2 == i;
        ClearBelow(live, i);
        FreePlusUsed(order, live, st, 2 * i);
        FreePlusUsed(order, live, st, 2 * i + 1);
        StatusBound(order, live, st, 2 * i);
        StatusBound(order, live, st, 2 * i + 1);
      }
    }
  }

  /** Occupying a wholly free node adds exactly its units. */
  lemma {:induction false} UsedAdd(order: nat, live: set<nat>, n: nat, i: nat)
    requires InSubtree(i, n) && n < Pow2(order) && WhollyFree(live, n)
    ensures UsedUnits(live + {n}, i, Width(order, i)) == UsedUnits(live, i, Width(order, i)) + Span(order, n)
    decreases Pow2(order) - i
  {
    if i == n {
      UsedNone(live, n, Width(order, n));
    } else {
      ClearMeans(live, n);
      SubtreeSplit(i, n);
      RowIsPaired(order, i, n);
      ChildDepth(order, i);
      if InSubtree(2 * i, n) {
        OneSide(i, n);
        UsedAdd(order, live, n, 2 * i);
        UsedElsewhere(live, n, 2 * i + 1, Width(order, i) - 1);
      } else {
        UsedAdd(order, live, n, 2 * i + 1);
        UsedElsewhere(live, n, 2 * i, Width(order, i) - 1);
      }
    }
  }

  lemma {:induction false} UsedElsewhere(live: set<nat>, n: nat, i: nat, h: nat)
    requires 0 < i && !InSubtree(i, n)
    ensures UsedUnits(live + {n}, i, h) == UsedUnits(live, i, h)
    decreases h
  {
    SubtreeSplit(i, n);
    if h > 0 {
      UsedElsewhere(live, n, 2 * i, h - 1);
      UsedElsewhere(live, n, 2 * i + 1, h - 1);
    }
  }

  lemma RowIsPaired(order: nat, i: nat, n: nat)
    requires InSubtree(i, n) && i < n < Pow2(order)
    ensures 2 * i + 1 < Pow2(order)
  {
    SubtreeDepth(i, n);
    DepthInTree(order, n);
    DepthInTree(order, i);
    LeafWidth(order, i);
  }

  lemma OneSide(i: nat, n: nat)
    requires 0 < i
    ensures !(InSubtree(2 * i, n) && InSubtree(2 * i + 1, n))
  {
    if InSubtree(2 * i, n) && InSubtree(2 * i + 1, n) {
      SameChain(2 * i, 2 * i + 1, n);
    }
  }
}
