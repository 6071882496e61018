/** The best fit in terms of memory: which place an allocation takes, and what is left after it. */
module BuddyPlacement {
  import opened BuddyArith
  import opened BuddyLayout
  import opened BuddyStatus
  import opened BuddyFit
  import opened BuddyBlocks
  import opened BuddyHeap
  import opened BuddyArena

  /**
   * Whatever block size still has room after the new block was put into some place with room for it,
   * still has room in `after`.
   */
  ghost predicate LeavesMostRoom(before: set<Block>, after: set<Block>, memorySize: nat, alignment: nat, size: nat) {
    forall k: nat, m: nat | Room(before, memorySize, size, k)
                            && !NoRoom(before + {Block(Scale(size, k), size)}, memorySize, SizeAt(alignment, m)) ::
      !NoRoom(after, memorySize, SizeAt(alignment, m))
  }

  lemma BestPlacement(alignment: nat, order: nat, units: nat, user: set<nat>, masked: set<nat>, live: set<nat>,
                      memorySize: nat, depth: nat, d: nat)
    requires Partition(order, units, user, masked, live) && Geometry(memorySize, alignment, units, order)
    requires 1 <= depth <= order && FreeAt(live, 1, depth - 1, d) && LeavesMost(order, live, depth - 1, d)
    requires 0 < d < Pow2(order)
    ensures LeavesMostRoom(BlocksOf(alignment, order, user), BlocksOf(alignment, order, user + {d}), memorySize,
                           alignment, SizeAt(alignment, order - depth))
  {
    hide Partition, Geometry, Room, FreeAt, LeavesMost, BlocksOf, SizeAt, Scale;
    var blocks, size := BlocksOf(alignment, order, user), SizeAt(alignment, order - depth);
    forall k: nat, m: nat | Room(blocks, memorySize, size, k)
                            && !NoRoom(blocks + {Block(Scale(size, k), size)}, memorySize, SizeAt(alignment, m))
      ensures !NoRoom(BlocksOf(alignment, order, user + {d}), memorySize, SizeAt(alignment, m))
    {
      PlacementCompared(alignment, order, units, user, masked, live, memorySize, depth, d, k, m);
    }
  }

  lemma PlacementCompared(alignment: nat, order: nat, units: nat, user: set<nat>, masked: set<nat>, live: set<nat>,
                          memorySize: nat, depth: nat, d: nat, k: nat, m: nat)
    requires Partition(order, units, user, masked, live) && Geometry(memorySize, alignment, units, order)
    requires 1 <= depth <= order && FreeAt(live, 1, depth - 1, d) && LeavesMost(order, live, depth - 1, d)
    requires 0 < d < Pow2(order)
    requires var size := SizeAt(alignment, order - depth);
             && Room(BlocksOf(alignment, order, user), memorySize, size, k)
             && !NoRoom(BlocksOf(alignment, order, user) + {Block(Scale(size, k), size)}, memorySize,
                        SizeAt(alignment, m))
    ensures !NoRoom(BlocksOf(alignment, order, user + {d}), memorySize, SizeAt(alignment, m))
  {
    hide Partition, Geometry, Room, BlocksOf, SizeAt, Scale, Pow2, Depth, InSubtree, WhollyFree;
    var pos := Pos(Pow2(depth - 1) + k, depth);
    RoomIsFree(alignment, order, units, user, masked, live, memorySize, depth, k);
    RowOffset(alignment, order, pos);
    AddBlock(alignment, order, user, pos.index);
    PartitionAdd(order, units, user, masked, live, pos.index);
    RowFits(alignment, order, units, memorySize, BlocksOf(alignment, order, user + {pos.index}), m);
    FreeRow(alignment, order, units, user + {pos.index}, masked, live + {pos.index}, memorySize, m);
    PartitionAdd(order, units, user, masked, live, d);
    FreeRow(alignment, order, units, user + {d}, masked, live + {d}, memorySize, m);
  }

  /** No block larger than the arena has room in it. */
  lemma RowFits(alignment: nat, order: nat, units: nat, memorySize: nat, blocks: set<Block>, m: nat)
    requires Geometry(memorySize, alignment, units, order) && !NoRoom(blocks, memorySize, SizeAt(alignment, m))
    ensures m < order
  {
    var k: nat :| Room(blocks, memorySize, SizeAt(alignment, m), k);
    if m >= order {
      GeometryFacts(memorySize, alignment, units, order);
      SizeAtScales(alignment, m);
      Pow2Monotone(order, m);
      Pow2Double(order - 1);
      ScaleCompare(alignment, Pow2(m), units);
    }
  }

  /** There is room for a block size exactly while its row has a wholly free node. */
  lemma FreeRow(alignment: nat, order: nat, units: nat, user: set<nat>, masked: set<nat>, live: set<nat>,
                memorySize: nat, m: nat)
    requires Partition(order, units, user, masked, live) && Geometry(memorySize, alignment, units, order) && m < order
    ensures HasFreeAt(live, 1, order - m - 1) <==>
            !NoRoom(BlocksOf(alignment, order, user), memorySize, SizeAt(alignment, m))
  {
    hide Partition, Geometry, Room, BlocksOf, SizeAt, Pow2, InSubtree, WhollyFree;
    var depth := order - m;
    if HasFreeAt(live, 1, depth - 1) {
      var j :| FreeAt(live, 1, depth - 1, j);
      FreeInTree(order, live, depth, j);
      RoomAt(alignment, order, units, user, masked, live, memorySize, Pos(j, depth));
    } else {
      NothingFits(alignment, order, units, user, masked, live, memorySize, depth);
    }
  }

  lemma FreeInTree(order: nat, live: set<nat>, depth: nat, j: nat)
    requires 1 <= depth <= order && FreeAt(live, 1, depth - 1, j)
    ensures ValidPos(order, Pos(j, depth)) && WhollyFree(live, j)
  {
    RootWidth(order);
    InRow(order, 1, depth - 1, j);
  }

  // ---------------------------------------------------------------- the first block of an empty arena

  ghost function Leftmost(i: nat, k: nat): nat {
    if k == 0 then i else 2 * Leftmost(i, k - 1)
  }

  lemma {:induction false} LeftmostFacts(order: nat, i: nat, k: nat)
    requires 0 < i < Pow2(order) && k < Width(order, i)
    ensures 0 < Leftmost(i, k) < Pow2(order) && InSubtree(i, Leftmost(i, k)) && Depth(Leftmost(i, k)) == Depth(i) + k
    ensures First(order, Leftmost(i, k)) == First(order, i)
  {
    if k > 0 {
      var x := Leftmost(i, k - 1);
      LeftmostFacts(order, i, k - 1);
      assert (2 * x) / 2 == x;
      InRow(order, i, k, 2 * x);
    }
  }

  lemma {:induction false} LeftmostBelow(i: nat, k: nat)
    requires 0 < i
    ensures 0 < Leftmost(i, k) && InSubtree(i, Leftmost(i, k)) && Depth(Leftmost(i, k)) == Depth(i) + k
  {
    if k > 0 {
      LeftmostBelow(i, k - 1);
      assert (2 * Leftmost(i, k - 1)) / 2 == Leftmost(i, k - 1);
    }
  }

  lemma {:induction false} FreeBelow(live: set<nat>, i: nat, j: nat)
    requires WhollyFree(live, i) && InSubtree(i, j)
    ensures WhollyFree(live, j)
    decreases j
  {
    if i < j {
      FreeBelow(live, i, j / 2);
      NoneBelowSplit(live, j / 2);
      assert j == 2 * (j / 2) || j == 2 * (j / 2) + 1;
    }
  }

  lemma RowsBelowFree(live: set<nat>, i: nat, k: nat)
    requires 0 < i && WhollyFree(live, i)
    ensures HasFreeAt(live, i, k)
  {
    LeftmostBelow(i, k);
    FreeBelow(live, i, Leftmost(i, k));
    assert FreeAt(live, i, k, Leftmost(i, k));
  }

  /** Where everything is free the way leads left all along. */
  lemma {:induction false} AllLeft(order: nat, live: set<nat>, i: nat, d: nat)
    requires 0 < i && WhollyFree(live, i) && InSubtree(i, d) && 0 < d < Pow2(order) && OnPath(live, 1, d)
    ensures First(order, d) == First(order, i)
    decreases d - i
  {
    if i != d {
      RootAboveAll(i);
      SubtreeDepth(i, d);
      SubtreeSplit(i, d);
      NoneBelowSplit(live, i);
      assert (2 * i) / 2 == i && (2 * i + 1) / 2 == i;
      ChildrenHaveAll(live, i);
      assert TakesLeft(live, i, Depth(d) - Depth(i) - 1);
      Nested(order, 2 * i, d);
      AllLeft(order, live, 2 * i, d);
    }
  }

  lemma ChildrenHaveAll(live: set<nat>, i: nat)
    requires 0 < i && WhollyFree(live, 2 * i) && WhollyFree(live, 2 * i + 1)
    ensures forall m: nat :: HasFreeAt(live, 2 * i, m) && HasFreeAt(live, 2 * i + 1, m)
  {
    forall m: nat ensures HasFreeAt(live, 2 * i, m) && HasFreeAt(live, 2 * i + 1, m) {
      RowsBelowFree(live, 2 * i, m);
      RowsBelowFree(live, 2 * i + 1, m);
    }
  }

  /** With the tail masked, what ends before it and is not under a masked node is free. */
  lemma BeforeTail(order: nat, units: nat, masked: set<nat>, i: nat)
    requires Masks(order, units, masked) && 0 < i < Pow2(order) && End(order, i) <= units
    ensures WhollyFree(masked, i)
  {
    ClearMeans(masked, i);
    forall a | a in masked ensures !InSubtree(i, a) && !InSubtree(a, i) {
      EndInRow(order, a);
      EndInRow(order, i);
      if InSubtree(i, a) { Nested(order, i, a); }
      if InSubtree(a, i) { Nested(order, a, i); }
    }
  }

  /** The right half has a free node of a row exactly when what the arena has there is as large as one. */
  lemma RightHalf(order: nat, units: nat, masked: set<nat>, k: nat)
    requires 1 < order && Masks(order, units, masked) && Pow2(order - 2) < units && k < order - 1
    ensures HasFreeAt(masked, 3, k) <==> Pow2(order - 2 - k) <= units - Pow2(order - 2)
  {
    TopRight(order);
    SpanHalves(order, 3);
    if HasFreeAt(masked, 3, k) {
      var j :| FreeAt(masked, 3, k, j);
      InRow(order, 3, k, j);
      FreeInsideArena(order, units, masked, masked, j);
      Nested(order, 3, j);
    }
    if Pow2(order - 2 - k) <= units - Pow2(order - 2) {
      var j := Leftmost(3, k);
      LeftmostFacts(order, 3, k);
      BeforeTail(order, units, masked, j);
      assert FreeAt(masked, 3, k, j);
    }
  }

  /** With a masked tail the right half goes first as long as the block fits there. */
  lemma TailPlacement(order: nat, units: nat, masked: set<nat>, depth: nat, d: nat)
    requires 1 < order && Masks(order, units, masked) && Pow2(order - 2) < units < Pow2(order - 1)
    requires 1 <= depth <= order && 0 < d < Pow2(order) && FreeAt(masked, 1, depth - 1, d) && OnPath(masked, 1, d)
    ensures First(order, d) == 0 <==> units - Pow2(order - 2) < Pow2(order - depth)
  {
    hide Clear, NoneBelow, TakesLeft, OnPath, Pow2;
    TopRight(order);
    BelowRoot(order, units, masked, depth, d);
    LeftHalfFree(order, units, masked);
    RightHalf(order, units, masked, depth - 2);
    RootTakesLeft(order, units, masked, depth - 2);
    TakenAtRoot(masked, d);
    if InSubtree(2, d) {
      AllLeft(order, masked, 2, d);
    } else {
      Nested(order, 3, d);
    }
  }

  lemma BelowRoot(order: nat, units: nat, masked: set<nat>, depth: nat, d: nat)
    requires 1 < order && Masks(order, units, masked) && units < Pow2(order - 1)
    requires 1 <= depth && 0 < d < Pow2(order) && FreeAt(masked, 1, depth - 1, d)
    ensures depth > 1 && d > 1 && Depth(d) == depth
  {
    FreeInsideArena(order, units, masked, masked, d);
    RootWidth(order);
    SubtreeDepth(1, d);
  }

  lemma LeftHalfFree(order: nat, units: nat, masked: set<nat>)
    requires 1 < order && Masks(order, units, masked) && Pow2(order - 2) < units < Pow2(order - 1)
    ensures WhollyFree(masked, 2) && !WhollyFree(masked, 3) && First(order, 2) == 0 && 3 < Pow2(order)
    ensures First(order, 3) == Pow2(order - 2)
  {
    TopRight(order);
    SpanHalves(order, 2);
    SpanHalves(order, 3);
    BeforeTail(order, units, masked, 2);
    if WhollyFree(masked, 3) { FreeInsideArena(order, units, masked, masked, 3); }
  }

  lemma RootTakesLeft(order: nat, units: nat, masked: set<nat>, k: nat)
    requires WhollyFree(masked, 2) && !WhollyFree(masked, 3)
    ensures TakesLeft(masked, 1, k) <==> !HasFreeAt(masked, 3, k)
  {
    hide FreeAt, HasFreeAt, WhollyFree;
    RowsBelowFree(masked, 2, k);
    RowsBelowFree(masked, 2, 0);
    OwnRow(masked, 3);
    assert HasFreeAt(masked, 2 * 1, 0) && HasFreeAt(masked, 2 * 1, k) && !HasFreeAt(masked, 2 * 1 + 1, 0);
  }

  lemma OwnRow(live: set<nat>, i: nat)
    requires 0 < i
    ensures HasFreeAt(live, i, 0) <==> WhollyFree(live, i)
  {
    if WhollyFree(live, i) { assert FreeAt(live, i, 0, i); }
    forall j | FreeAt(live, i, 0, j) ensures j == i { SubtreeDepth(i, j); }
  }

  lemma TakenAtRoot(live: set<nat>, d: nat)
    requires 1 < d && OnPath(live, 1, d)
    ensures InSubtree(2, d) <==> TakesLeft(live, 1, Depth(d) - 2)
    ensures InSubtree(2, d) || InSubtree(3, d)
  {
    hide TakesLeft;
    RootAboveAll(d);
    SubtreeSplit(1, d);
    assert InSubtree(1, 1) && Depth(1) == 1;
  }

  /**
   * An empty arena hands out its start, unless what it has beyond the largest power of two below its
   * size holds the block: then that is taken first.
   */
  lemma FirstPlacement(alignment: nat, order: nat, units: nat, masked: set<nat>, memorySize: nat, depth: nat, d: nat,
                       c: nat)
    requires Partition(order, units, {}, masked, masked) && Geometry(memorySize, alignment, units, order)
    requires 1 <= depth <= order && 0 < d < Pow2(order) && FreeAt(masked, 1, depth - 1, d) && OnPath(masked, 1, d)
    requires Pow2(c) <= memorySize < Pow2(c + 1)
    ensures Scale(alignment, First(order, d)) == 0 <==> memorySize - Pow2(c) < SizeAt(alignment, order - depth)
  {
    hide Partition, Geometry, FreeAt, OnPath, Pow2, First, Scale, SizeAt;
    TailSize(memorySize, alignment, units, order);
    MaskedUnits(order, units, masked);
    PositiveScale(memorySize, alignment, units, order, First(order, d), order - depth);
    LargestPower(memorySize, alignment, units, order, c);
    if units == Pow2(order - 1) {
      RootFree();
      RootAboveAll(d);
      AllLeft(order, masked, 1, d);
      RootFirst(order);
    } else {
      TailPlacement(order, units, masked, depth, d);
      TailCompared(memorySize, alignment, units, order, order - depth);
    }
  }

  lemma MaskedUnits(order: nat, units: nat, masked: set<nat>)
    requires Partition(order, units, {}, masked, masked)
    ensures Masks(order, units, masked) && 0 < order && (units == Pow2(order - 1) ==> masked == {})
  {
    forall a | a in masked ensures units < Pow2(order - 1) { EndInRow(order, a); }
  }

  lemma RootFree()
    ensures WhollyFree({}, 1)
  {
    assert Clear({}, 0);
  }

  lemma RootFirst(order: nat)
    requires 0 < order
    ensures 1 < Pow2(order) && First(order, 1) == 0
  {
    RootWidth(order);
  }

  lemma PositiveScale(memorySize: nat, alignment: nat, units: nat, order: nat, n: nat, k: nat)
    requires Geometry(memorySize, alignment, units, order)
    ensures Scale(alignment, n) == 0 <==> n == 0
    ensures 0 < SizeAt(alignment, k)
  {
    UnitsFit(alignment, n);
    SizePositive(alignment, k);
  }

  /** The largest power of two within the arena's size: all of it, or what one row less spans. */
  lemma LargestPower(memorySize: nat, alignment: nat, units: nat, order: nat, c: nat)
    requires Geometry(memorySize, alignment, units, order) && Pow2(c) <= memorySize < Pow2(c + 1)
    ensures 0 < order && (units == Pow2(order - 1) ==> Pow2(c) == memorySize)
    ensures units != Pow2(order - 1) ==> 1 < order && Pow2(c) == SizeAt(alignment, order - 2)
  {
    TailSize(memorySize, alignment, units, order);
    var top := CeilLog(memorySize);
    if units == Pow2(order - 1) {
      Between(c, top, memorySize);
    } else {
      GeometryFacts(memorySize, alignment, units, order);
      ScaleCompare(alignment, units, Pow2(order - 2));
      ScaleCompare(alignment, units, Pow2(order - 1));
      SizeAtScales(alignment, order - 2);
      SizeAtScales(alignment, order - 1);
      assert Pow2(0) == 1 && top > 0;
      Pow2Double(top - 1);
      Between(c, top - 1, memorySize);
    }
  }

  lemma Between(a: nat, b: nat, n: nat)
    requires Pow2(a) <= n < Pow2(a + 1) && Pow2(b) <= n < Pow2(b + 1)
    ensures a == b
  {
    if a < b { Pow2Monotone(a + 1, b); }
    if b < a { Pow2Monotone(b + 1, a); }
  }

  lemma TailCompared(memorySize: nat, alignment: nat, units: nat, order: nat, k: nat)
    requires Geometry(memorySize, alignment, units, order) && 1 < order && Pow2(order - 2) <= units
    ensures memorySize - SizeAt(alignment, order - 2) < SizeAt(alignment, k) <==> units - Pow2(order - 2) < Pow2(k)
  {
    hide Pow2, SizeAt, CeilLog, Scale;
    SizeAtScales(alignment, order - 2);
    SizeAtScales(alignment, k);
    ScaleSum(alignment, Pow2(order - 2), units - Pow2(order - 2));
    ScaleCompare(alignment, units - Pow2(order - 2), Pow2(k));
  }

  /**
   * The place is the arena's start, unless what lies beyond the largest power of two within the arena
   * holds the block.
   */
  ghost predicate StartFirst(memorySize: nat, size: nat, offset: nat) {
    forall c: nat | Pow2(c) <= memorySize < Pow2(c + 1) :: offset == 0 <==> memorySize - Pow2(c) < size
  }

  /** In an arena of 96 bytes the first block of 32 is not at the start: what lies beyond the first 64 is preferred. */
  lemma TailComesFirst(offset: nat)
    requires StartFirst(96, 32, offset)
    ensures offset != 0
  {
    assert Pow2(6) == 64 && Pow2(7) == 128;
  }

  lemma FirstOfEmpty(alignment: nat, order: nat, units: nat, user: set<nat>, masked: set<nat>, live: set<nat>,
                     memorySize: nat, pos: Pos)
    requires Partition(order, units, user, masked, live) && Geometry(memorySize, alignment, units, order)
    requires ValidPos(order, pos) && WhollyFree(live, pos.index) && OnPath(live, 1, pos.index)
    ensures 1 <= pos.depth <= order
    ensures BlocksOf(alignment, order, user) == {} ==>
              StartFirst(memorySize, SizeAt(alignment, order - pos.depth), Scale(alignment, First(order, pos.index)))
  {
    hide Partition, Geometry, FreeAt, OnPath, Pow2, First, Scale, SizeAt, BlocksOf, WhollyFree, Depth;
    DepthInTree(order, pos.index);
    FreePosition(order, live, pos);
    NoUser(alignment, order, units, user, masked, live);
    if BlocksOf(alignment, order, user) == {} {
      forall c: nat | Pow2(c) <= memorySize < Pow2(c + 1)
        ensures Scale(alignment, First(order, pos.index)) == 0 <==>
                memorySize - Pow2(c) < SizeAt(alignment, order - pos.depth)
      {
        FirstPlacement(alignment, order, units, masked, memorySize, pos.depth, pos.index, c);
      }
    }
  }

  lemma NoUser(alignment: nat, order: nat, units: nat, user: set<nat>, masked: set<nat>, live: set<nat>)
    requires Partition(order, units, user, masked, live)
    ensures BlocksOf(alignment, order, user) == {} ==> user == {} && live == masked
  {
    forall i | i in user
      ensures 0 < i < Pow2(order) && BlockOf(alignment, order, i) in BlocksOf(alignment, order, user)
    {
    }
  }

  lemma FreePosition(order: nat, live: set<nat>, pos: Pos)
    requires ValidPos(order, pos) && WhollyFree(live, pos.index)
    ensures FreeAt(live, 1, pos.depth - 1, pos.index) && 0 < pos.index < Pow2(order)
  {
    RootAboveAll(pos.index);
  }
}
