/** How the occupied and masked nodes of the tree partition an arena into blocks. */
module BuddyArena {
  import opened BuddyArith
  import opened BuddyLayout
  import opened BuddyStatus
  import opened BuddyBlocks
  import opened BuddyHeap
  import opened Wrappers

  /** The leaf of unit `u`. */
  function Leaf(order: nat, u: nat): nat
    requires 0 < order
  {
    Pow2(order - 1) + u
  }

  /** Tail units beyond `units` are covered by the masked nodes and by nothing else. */
  ghost predicate Masks(order: nat, units: nat, masked: set<nat>) {
    && 0 < order
    && (forall i | i in masked :: 0 < i < Pow2(order) && units <= First(order, i))
    && forall u: nat | units <= u < Pow2(order - 1) :: !Clear(masked, Leaf(order, u))
  }

  lemma EndInRow(order: nat, i: nat)
    requires 0 < order && 0 < i < Pow2(order)
    ensures First(order, i) < End(order, i) <= Pow2(order - 1)
  {
    hide Depth, Pow2;
    RootAboveAll(i);
    Nested(order, 1, i);
    RootWidth(order);
  }

  /** With the tail masked, wholly free nodes lie inside the arena. */
  lemma FreeInsideArena(order: nat, units: nat, masked: set<nat>, live: set<nat>, i: nat)
    requires Masks(order, units, masked) && masked <= live
    requires 0 < i < Pow2(order) && WhollyFree(live, i)
    ensures End(order, i) <= units
  {
    hide Clear, Depth, Pow2, First, Span, End, InSubtree;
    EndInRow(order, i);
    if End(order, i) > units {
      var u := End(order, i) - 1;
      var x := Leaf(order, u);
      LeafUnder(order, i, u);
      ClearMeans(masked, x);
      var a :| a in masked && 0 < a && InSubtree(a, x);
      SameChain(a, i, x);
      ClearMeans(live, i);
    }
  }

  /** Where the address search ends: the lowest node at or above `i` whose status is not zero, or 0. */
  ghost function Climb(st: seq<nat>, i: nat): (r: nat)
    requires i < |st|
    ensures r <= i
  {
    if i == 0 || st[i] != 0 then i else Climb(st, i / 2)
  }

  /** The climb from a leaf finds the occupied node above it, and otherwise nothing that can be released. */
  lemma {:induction false} ClimbMeaning(order: nat, live: set<nat>, st: seq<nat>, i: nat, n: nat)
    requires Consistent(order, live, st) && 0 < i < |st|
    requires n in live ==> 0 < n && InSubtree(n, i)
    requires n !in live ==> Clear(live, i)
    requires n !in live ==> 2 * i + 1 >= |st| || st[2 * i] == 0 || st[2 * i + 1] == 0
    ensures n in live ==> Climb(st, i) == n
    ensures n !in live ==>
              Climb(st, i) == 0 || (Climb(st, i) !in live && st[Climb(st, i)] != Width(order, Climb(st, i)))
    decreases i
  {
    assert LocalOk(order, live, st, i);
    if n in live {
      if i != n {
        ClearMeans(live, i / 2);
        CoveredIsZero(order, live, st, i);
        ClimbMeaning(order, live, st, i / 2, n);
      }
    } else if st[i] != 0 {
      if 2 * i + 1 < |st| && st[i] == Width(order, i) { FullAboveZero(order, live, st, i); }
    } else if i > 1 {
      assert i == 2 * (i / 2) || i == 2 * (i / 2) + 1;
      ClimbMeaning(order, live, st, i / 2, n);
    }
  }

  /** The tail from unit `end` on is masked, and nothing else is occupied. */
  ghost predicate MaskedFrom(order: nat, end: nat, live: set<nat>) {
    && Antichain(order, live)
    && Masks(order, end, live)
    && end <= Pow2(order - 1)
    && 1 < Pow2(order) && UsedUnits(live, 1, order) == Pow2(order - 1) - end
  }

  lemma NothingMasked(order: nat)
    requires 0 < order
    ensures MaskedFrom(order, Pow2(order - 1), {})
  {
    RootWidth(order);
    UsedNone({}, 1, order);
  }

  /** Masking a free node that ends where the masked tail starts moves that start to the node's first unit. */
  lemma MaskNode(order: nat, end: nat, live: set<nat>, i: nat)
    requires MaskedFrom(order, end, live) && 0 < i < Pow2(order)
    requires WhollyFree(live, i) && End(order, i) == end
    ensures MaskedFrom(order, First(order, i), live + {i})
  {
    AntichainAdd(order, live, i);
    RootAboveAll(i);
    UsedAdd(order, live, i, 1);
    forall u: nat | First(order, i) <= u < Pow2(order - 1)
      ensures !Clear(live + {i}, Leaf(order, u))
    {
      LeafMasked(order, end, live, i, u);
    }
  }

  lemma LeafMasked(order: nat, end: nat, live: set<nat>, i: nat, u: nat)
    requires Masks(order, end, live) && 0 < i < Pow2(order) && End(order, i) == end
    requires First(order, i) <= u < Pow2(order - 1)
    ensures !Clear(live + {i}, Leaf(order, u))
  {
    ClearMeans(live + {i}, Leaf(order, u));
    ClearMeans(live, Leaf(order, u));
    if u < end { LeafUnder(order, i, u); }
  }

  /**
   * State of the masking loop: everything beyond the free node `pos` is masked, the arena ends
   * inside it, and `delta` bytes separate the two ends.
   */
  ghost predicate Masking(alignment: nat, order: nat, units: nat, masked: set<nat>, pos: Pos, delta: nat) {
    && ValidPos(order, pos) && WhollyFree(masked, pos.index)
    && First(order, pos.index) <= units < End(order, pos.index)
    && MaskedFrom(order, End(order, pos.index), masked)
    && delta == Scale(alignment, End(order, pos.index) - units)
  }

  lemma MaskStart(memorySize: nat, alignment: nat, units: nat, order: nat)
    requires Geometry(memorySize, alignment, units, order)
    ensures memorySize <= SizeAt(alignment, order - 1) == Pow2(CeilLog(memorySize))
    ensures memorySize == SizeAt(alignment, order - 1) ==> MaskedFrom(order, units, {})
    ensures memorySize < SizeAt(alignment, order - 1) ==>
              Masking(alignment, order, units, {}, RightChild(ROOT), SizeAt(alignment, order - 1) - memorySize)
  {
    TailSize(memorySize, alignment, units, order);
    NothingMasked(order);
    if memorySize < SizeAt(alignment, order - 1) {
      TopRight(order);
    }
  }

  /** The node that fits exactly ends the loop. */
  lemma MaskExactly(alignment: nat, order: nat, units: nat, masked: set<nat>, pos: Pos, delta: nat)
    requires 0 < alignment && Masking(alignment, order, units, masked, pos, delta)
    ensures pos.depth <= order
    ensures delta == SizeAt(alignment, order - pos.depth) ==> MaskedFrom(order, units, masked + {pos.index})
  {
    var i := pos.index;
    DepthInTree(order, i);
    MaskSizes(alignment, Width(order, i), End(order, i) - units);
    if First(order, i) == units {
      MaskNode(order, End(order, i), masked, i);
    } else {
      assert End(order, i) - units != Span(order, i);
    }
  }

  /** Otherwise the loop goes on in the right half, or masks it and goes on in the left half. */
  lemma MaskHalf(alignment: nat, order: nat, units: nat, masked: set<nat>, pos: Pos, delta: nat)
    requires 0 < alignment && Masking(alignment, order, units, masked, pos, delta)
    requires pos.depth <= order && delta != SizeAt(alignment, order - pos.depth)
    ensures pos.depth < order && ValidPos(order, LeftChild(pos)) && ValidPos(order, RightChild(pos))
    ensures delta <= SizeAt(alignment, order - pos.depth) / 2 ==>
              Masking(alignment, order, units, masked, RightChild(pos), delta)
    ensures delta > SizeAt(alignment, order - pos.depth) / 2 ==>
              && WhollyFree(masked, RightChild(pos).index)
              && Masking(alignment, order, units, masked + {RightChild(pos).index}, LeftChild(pos),
                      delta - SizeAt(alignment, order - pos.depth) / 2)
  {
    var i := pos.index;
    HalfSizes(alignment, order, units, pos, delta);
    if delta <= SizeAt(alignment, order - pos.depth) / 2 {
      MaskRight(alignment, order, units, masked, pos, delta);
    } else {
      MaskLeft(alignment, order, units, masked, pos, delta, delta - SizeAt(alignment, order - pos.depth) / 2);
    }
  }

  lemma MaskRight(alignment: nat, order: nat, units: nat, masked: set<nat>, pos: Pos, delta: nat)
    requires Masking(alignment, order, units, masked, pos, delta)
    requires 2 * pos.index + 1 < Pow2(order) && ValidPos(order, RightChild(pos))
    requires End(order, pos.index) - units <= Span(order, 2 * pos.index + 1)
    ensures Masking(alignment, order, units, masked, RightChild(pos), delta)
  {
    hide MaskedFrom, WhollyFree, Scale, Span, First;
    HalfUnits(order, units, masked, pos.index);
  }

  lemma MaskLeft(alignment: nat, order: nat, units: nat, masked: set<nat>, pos: Pos, delta: nat, rest: nat)
    requires Masking(alignment, order, units, masked, pos, delta)
    requires 2 * pos.index + 1 < Pow2(order) && ValidPos(order, LeftChild(pos))
    requires End(order, pos.index) - units > Span(order, 2 * pos.index + 1)
    requires rest == Scale(alignment, End(order, pos.index) - units - Span(order, 2 * pos.index + 1))
    ensures WhollyFree(masked, 2 * pos.index + 1)
    ensures Masking(alignment, order, units, masked + {2 * pos.index + 1}, LeftChild(pos), rest)
  {
    HalfUnits(order, units, masked, pos.index);
  }

  /** The same in units: the boundary moves to the end of the child that it falls into. */
  lemma HalfUnits(order: nat, units: nat, masked: set<nat>, i: nat)
    requires 0 < i && 2 * i + 1 < Pow2(order) && WhollyFree(masked, i) && MaskedFrom(order, End(order, i), masked)
    requires First(order, i) <= units < End(order, i)
    ensures var half := Span(order, 2 * i + 1);
            && WhollyFree(masked, 2 * i + 1)
            && First(order, 2 * i) == First(order, i)
              && End(order, 2 * i) == First(order, 2 * i + 1) == End(order, i) - half
            && End(order, 2 * i + 1) == End(order, i)
            && (units < First(order, 2 * i + 1) ==>
                  WhollyFree(masked + {2 * i + 1}, 2 * i) && MaskedFrom(order, End(order, 2 * i), masked + {2 * i + 1}))
  {
    ChildrenFree(order, masked, i);
    if units < First(order, 2 * i + 1) {
      MaskNode(order, End(order, i), masked, 2 * i + 1);
    }
  }

  /** Comparing `delta` with half the node compares the units still to mask with the right child. */
  lemma HalfSizes(alignment: nat, order: nat, units: nat, pos: Pos, delta: nat)
    requires 0 < alignment && ValidPos(order, pos) && First(order, pos.index) <= units < End(order, pos.index)
    requires delta == Scale(alignment, End(order, pos.index) - units)
    requires pos.depth <= order && delta != SizeAt(alignment, order - pos.depth)
    ensures pos.depth < order && 2 * pos.index + 1 < Pow2(order)
    ensures ValidPos(order, LeftChild(pos)) && ValidPos(order, RightChild(pos))
    ensures var half := Span(order, 2 * pos.index + 1);
            && (delta <= SizeAt(alignment, order - pos.depth) / 2 <==> End(order, pos.index) - units <= half)
            && (End(order, pos.index) - units >= half ==>
                  Scale(alignment, End(order, pos.index) - units - half)
                    == delta - SizeAt(alignment, order - pos.depth) / 2)
  {
    hide First, Scale, SizeAt, Pow2, Depth;
    DepthInTree(order, pos.index);
    HalfOf(alignment, order, pos.index, End(order, pos.index) - units);
  }

  lemma HalfOf(alignment: nat, order: nat, i: nat, excess: nat)
    requires 0 < alignment && 0 < i < Pow2(order) && Depth(i) <= order && 0 < excess <= Span(order, i)
    requires Scale(alignment, excess) != SizeAt(alignment, order - Depth(i))
    ensures Depth(i) < order && 2 * i + 1 < Pow2(order) && Depth(2 * i) == Depth(2 * i + 1) == Depth(i) + 1
    ensures var half, size := Span(order, 2 * i + 1), SizeAt(alignment, order - Depth(i));
            && (Scale(alignment, excess) <= size / 2 <==> excess <= half)
            && (excess >= half ==> Scale(alignment, excess - half) == Scale(alignment, excess) - size / 2)
  {
    var w := Width(order, i);
    MaskSizes(alignment, w, excess);
    assert excess != Pow2(w - 1);
    ChildWidth(order, i);
  }

  lemma ChildWidth(order: nat, i: nat)
    requires 0 < i < Pow2(order) && Depth(i) <= order && 1 < Pow2(Width(order, i) - 1)
    ensures Depth(i) < order && 2 * i + 1 < Pow2(order) && Depth(2 * i) == Depth(2 * i + 1) == Depth(i) + 1
    ensures Span(order, 2 * i + 1) == Pow2(Width(order, i) - 2)
  {
    InnerNode(order, i);
  }

  /** The byte comparisons of the masking loop, in units. */
  lemma MaskSizes(alignment: nat, width: nat, excess: nat)
    requires 0 < alignment && 0 < width
    ensures Scale(alignment, excess) == SizeAt(alignment, width - 1) <==> excess == Pow2(width - 1)
    ensures width > 1 ==>
              && (Scale(alignment, excess) <= SizeAt(alignment, width - 1) / 2 <==> excess <= Pow2(width - 2))
              && (excess >= Pow2(width - 2) ==>
                    Scale(alignment, excess - Pow2(width - 2))
                      == Scale(alignment, excess) - SizeAt(alignment, width - 1) / 2)
  {
    SizeAtScales(alignment, width - 1);
    ScaleCompare(alignment, excess, Pow2(width - 1));
    if width > 1 {
      var half := Pow2(width - 2);
      SizeAtScales(alignment, width - 2);
      ScaleCompare(alignment, excess, half);
      if excess >= half { ScaleSum(alignment, half, excess - half); }
    }
  }

  lemma TailSize(memorySize: nat, alignment: nat, units: nat, order: nat)
    requires Geometry(memorySize, alignment, units, order)
    ensures units <= Pow2(order - 1)
    ensures Pow2(CeilLog(memorySize)) == SizeAt(alignment, order - 1)
    ensures memorySize == SizeAt(alignment, order - 1) <==> units == Pow2(order - 1)
    ensures Scale(alignment, Pow2(order - 1) - units) == SizeAt(alignment, order - 1) - memorySize
    ensures order > 1 ==> Pow2(order - 2) < units
    ensures order == 1 ==> units == 1 == Pow2(0)
  {
    GeometryFacts(memorySize, alignment, units, order);
    SizeAtScales(alignment, order - 1);
    ScaleCompare(alignment, units, Pow2(order - 1));
    ScaleSum(alignment, units, Pow2(order - 1) - units);
  }

  lemma ChildrenFree(order: nat, live: set<nat>, i: nat)
    requires 0 < i && 2 * i + 1 < Pow2(order) && WhollyFree(live, i)
    ensures WhollyFree(live, 2 * i) && WhollyFree(live, 2 * i + 1)
    ensures WhollyFree(live + {2 * i + 1}, 2 * i)
    ensures Span(order, i) == 2 * Span(order, 2 * i) == 2 * Span(order, 2 * i + 1)
    ensures End(order, 2 * i) == First(order, 2 * i + 1) && End(order, 2 * i + 1) == End(order, i)
  {
    NoneBelowSplit(live, i);
    SpanHalves(order, 2 * i);
    SpanHalves(order, 2 * i + 1);
    assert (2 * i) / 2 == i && (2 * i + 1) / 2 == i;
    ClearAdd(live, 2 * i + 1, 2 * i);
    if InSubtree(2 * i, 2 * i + 1) { SubtreeDepth(2 * i, 2 * i + 1); }
  }

  /** Occupied nodes are the ones handed out, inside the arena, and the masked ones, beyond it. */
  ghost predicate Partition(order: nat, units: nat, user: set<nat>, masked: set<nat>, live: set<nat>) {
    && live == user + masked && user !! masked
    && Antichain(order, live)
    && Masks(order, units, masked)
    && 1 < Pow2(order) && units <= Pow2(order - 1)
    && (forall i | i in user :: 0 < i < Pow2(order) && End(order, i) <= units)
    && UsedUnits(live, 1, order) == UsedUnits(user, 1, order) + (Pow2(order - 1) - units)
  }

  lemma EmptyPartition(order: nat, units: nat, masked: set<nat>)
    requires MaskedFrom(order, units, masked)
    ensures Partition(order, units, {}, masked, masked)
  {
    UsedNone({}, 1, order);
  }

  lemma PartitionAdd(order: nat, units: nat, user: set<nat>, masked: set<nat>, live: set<nat>, i: nat)
    requires Partition(order, units, user, masked, live)
    requires 0 < i < Pow2(order) && WhollyFree(live, i)
    ensures Partition(order, units, user + {i}, masked, live + {i})
    ensures UsedUnits(user + {i}, 1, order) == UsedUnits(user, 1, order) + Span(order, i)
  {
    FreeInsideArena(order, units, masked, live, i);
    AntichainAdd(order, live, i);
    RootAboveAll(i);
    UsedAdd(order, live, i, 1);
    SubsetFree(user, live, i);
    UsedAdd(order, user, i, 1);
    assert i !in masked by { assert InSubtree(i, i); }
  }

  lemma SubsetFree(user: set<nat>, live: set<nat>, i: nat)
    requires user <= live && WhollyFree(live, i)
    ensures WhollyFree(user, i)
  {
    ClearMeans(live, i);
    ClearMeans(user, i);
  }

  lemma PartitionRemove(order: nat, units: nat, user: set<nat>, masked: set<nat>, live: set<nat>, i: nat)
    requires Partition(order, units, user, masked, live) && i in user
    ensures Partition(order, units, user - {i}, masked, live - {i})
    ensures UsedUnits(user, 1, order) == UsedUnits(user - {i}, 1, order) + Span(order, i)
  {
    AntichainRemove(order, live, i);
    RemovedIsFree(order, live, i);
    RootAboveAll(i);
    UsedAdd(order, live - {i}, i, 1);
    assert live - {i} + {i} == live;
    SubsetFree(user - {i}, live - {i}, i);
    UsedAdd(order, user - {i}, i, 1);
    assert user - {i} + {i} == user;
    assert live - {i} == user - {i} + masked;
  }

  lemma RemovedIsFree(order: nat, live: set<nat>, i: nat)
    requires Antichain(order, live) && i in live
    ensures WhollyFree(live - {i}, i)
  {
    ClearRemove(live, i, i / 2);
    forall j | j in live - {i} ensures !InSubtree(i, j) {
      ClearMeans(live, j / 2);
    }
  }

  /** Next node in preorder outside the subtree of `i`, 0 if there is none. */
  ghost function NextUp(i: nat): nat {
    if i <= 1 then 0 else if i % 2 == 0 then i + 1 else NextUp(i / 2)
  }

  /** Free units the walk still meets when it is about to visit `i`. */
  ghost function FreeFrom(order: nat, st: seq<nat>, i: nat): nat
    requires |st| == Pow2(order) && 0 < i < |st|
  {
    FreeUnits(order, st, i) + FreeAfter(order, st, i)
  }

  lemma WalkStart(order: nat, st: seq<nat>, alignment: nat)
    requires |st| == Pow2(order) && 1 < |st|
    ensures FreeFrom(order, st, 1) == FreeUnits(order, st, 1) && Scale(alignment, 0) == 0
  {
    hide FreeUnits;
  }

  ghost function FreeAfter(order: nat, st: seq<nat>, i: nat): nat
    requires |st| == Pow2(order) && 0 < i < |st|
  {
    if i == 1 then 0
    else if i % 2 == 0 && i + 1 < |st| then FreeUnits(order, st, i + 1) + FreeAfter(order, st, i / 2)
    else FreeAfter(order, st, i / 2)
  }

  /** Units at or after the start of `i`. */
  ghost function WalkLeft(order: nat, i: nat): nat
    requires 0 < order && 0 < i < Pow2(order)
  {
    RootAboveAll(i);
    Nested(order, 1, i);
    Pow2(order - 1) - First(order, i)
  }

  lemma {:induction false} NextUpStep(order: nat, st: seq<nat>, i: nat)
    requires 0 < order && |st| == Pow2(order) && 0 < i < |st|
    ensures NextUp(i) < |st|
    ensures NextUp(i) == 0 ==> FreeAfter(order, st, i) == 0
    ensures NextUp(i) != 0 ==>
              && FreeAfter(order, st, i) == FreeFrom(order, st, NextUp(i))
              && First(order, NextUp(i)) == End(order, i)
  {
    if i > 1 {
      SpanHalves(order, i);
      if i % 2 == 0 {
        SiblingInRow(order, i);
        SpanHalves(order, i + 1);
        assert (i + 1) / 2 == i / 2;
      } else {
        NextUpStep(order, st, i / 2);
      }
    }
  }

  /** The walk leaves a full or a free node behind. */
  lemma WalkPast(order: nat, st: seq<nat>, i: nat)
    requires 0 < order && |st| == Pow2(order) && 0 < i < |st|
    requires st[i] == 0 || st[i] == Width(order, i)
    ensures NextUp(i) < |st|
    ensures FreeFrom(order, st, i) == (if st[i] == 0 then Span(order, i) else 0)
                                      + (if NextUp(i) == 0 then 0 else FreeFrom(order, st, NextUp(i)))
    ensures NextUp(i) != 0 ==> WalkLeft(order, NextUp(i)) < WalkLeft(order, i)
  {
    NextUpStep(order, st, i);
  }

  /** The walk enters a partly used node. */
  lemma WalkInto(order: nat, live: set<nat>, st: seq<nat>, i: nat)
    requires 0 < order && Consistent(order, live, st) && 0 < i < |st|
    requires st[i] != 0 && st[i] != Width(order, i)
    ensures 2 * i + 1 < |st|
    ensures FreeFrom(order, st, i) == FreeFrom(order, st, 2 * i)
    ensures WalkLeft(order, 2 * i) == WalkLeft(order, i)
  {
    StatusBound(order, live, st, i);
    LeafWidth(order, i);
    SpanHalves(order, 2 * i);
    assert (2 * i) / 2 == i;
  }

  /** Free units plus handed-out units are the units of the arena: the masked tail is in neither. */
  lemma FreeRest(memorySize: nat, alignment: nat, order: nat, units: nat, user: set<nat>, masked: set<nat>,
                 live: set<nat>, st: seq<nat>)
    requires Partition(order, units, user, masked, live) && Geometry(memorySize, alignment, units, order)
    requires Consistent(order, live, st)
    ensures 1 < |st|
    ensures Scale(alignment, FreeUnits(order, st, 1)) + BytesUsed(alignment, order, user) == memorySize
  {
    hide UsedUnits, FreeUnits, Antichain, LocalOk, CeilLog, Scale, Masks;
    RootWidth(order);
    FreePlusUsed(order, live, st, 1);
    ScaleSum(alignment, FreeUnits(order, st, 1), UsedUnits(user, 1, order));
  }

  /** The `k`-th aligned place for a block of `size` bytes is inside the arena and unused. */
  ghost predicate Room(blocks: set<Block>, memorySize: nat, size: nat, k: nat) {
    Scale(size, k) + size <= memorySize && forall b | b in blocks :: Disjoint(Block(Scale(size, k), size), b)
  }

  /** `offset` is a multiple of `size`, and a block of `size` bytes there is inside the arena and unused. */
  ghost predicate HasRoom(blocks: set<Block>, memorySize: nat, size: nat, offset: nat) {
    exists k: nat :: Room(blocks, memorySize, size, k) && offset == Scale(size, k)
  }

  ghost predicate NoRoom(blocks: set<Block>, memorySize: nat, size: nat) {
    forall k: nat :: !Room(blocks, memorySize, size, k)
  }

  /** The leaf whose memory starts at byte `addr`, rounded down. */
  function LeafOf(alignment: nat, order: nat, addr: nat): nat
    requires 0 < alignment && 0 < order
  {
    Leaf(order, addr / alignment)
  }

  lemma AddressLeaf(memorySize: nat, alignment: nat, units: nat, order: nat, addr: nat)
    requires Geometry(memorySize, alignment, units, order)
    requires addr < memorySize && addr % alignment == 0
    ensures addr / alignment < units && Scale(alignment, addr / alignment) == addr
    ensures ValidPos(order, Pos(LeafOf(alignment, order, addr), order))
  {
    GeometryFacts(memorySize, alignment, units, order);
    ScaleOfQuotient(alignment, addr);
    ScaleCompare(alignment, units, addr / alignment);
    LeafInTree(order, addr / alignment);
  }

  lemma LeafInTree(order: nat, u: nat)
    requires 0 < order && u < Pow2(order - 1)
    ensures ValidPos(order, Pos(Leaf(order, u), order))
    ensures 2 * Leaf(order, u) + 1 >= Pow2(order)
  {
    Pow2Double(order - 1);
    DepthUnique(Leaf(order, u), order);
  }

  /** The node a pointer denotes: the climb's result if it starts at the pointer, otherwise 0. */
  ghost function Target(alignment: nat, order: nat, st: seq<nat>, addr: nat): nat
    requires 0 < alignment && 0 < order && |st| == Pow2(order)
  {
    if addr % alignment != 0 || LeafOf(alignment, order, addr) >= |st| then 0
    else
      var r := Climb(st, LeafOf(alignment, order, addr));
      if r != 0 && Scale(alignment, First(order, r)) == addr then r else 0
  }

  /** The occupied nodes other than `n`, seen as blocks, when `n` is the one at `addr`. */
  lemma FreeEffect(alignment: nat, order: nat, units: nat, user: set<nat>, masked: set<nat>, live: set<nat>,
                   st: seq<nat>, memorySize: nat, addr: nat)
    requires Partition(order, units, user, masked, live) && Geometry(memorySize, alignment, units, order)
    requires Consistent(order, live, st) && addr < memorySize
    ensures var n := Target(alignment, order, st, addr);
            && n < |st|
            && (n != 0 && st[n] == Width(order, n) ==> n in live)
            && (n in live <==> n in user)
            && Partition(order, units, user - {n}, masked, live - {n})
            && BlocksOf(alignment, order, user - {n}) == Without(BlocksOf(alignment, order, user), Some(addr))
            && (forall b | b in BlocksOf(alignment, order, user) && b.offset == addr ::
                  BytesUsed(alignment, order, user - {n}) == BytesUsed(alignment, order, user) - b.size)
  {
    var n := Target(alignment, order, st, addr);
    TargetIsOccupied(alignment, order, units, user, masked, live, st, memorySize, addr);
    if n in user {
      PartitionRemove(order, units, user, masked, live, n);
      RemoveBlock(alignment, order, live, user, n);
      ScaleSum(alignment, UsedUnits(user - {n}, 1, order), Span(order, n));
      SizeAtScales(alignment, Width(order, n) - 1);
    } else {
      assert user - {n} == user && live - {n} == live;
    }
  }

  lemma RemoveBlock(alignment: nat, order: nat, live: set<nat>, user: set<nat>, n: nat)
    requires 0 < alignment && Antichain(order, live) && user <= live && n in user
    ensures BlocksOf(alignment, order, user - {n}) ==
            set b | b in BlocksOf(alignment, order, user) && b.offset != BlockOf(alignment, order, n).offset
    ensures forall b | b in BlocksOf(alignment, order, user) && b.offset == BlockOf(alignment, order, n).offset ::
              b == BlockOf(alignment, order, n)
  {
    forall i | i in user && i != n
      ensures BlockOf(alignment, order, i).offset != BlockOf(alignment, order, n).offset
    {
      OccupiedDisjoint(alignment, order, live, i, n);
      SizePositive(alignment, Width(order, i) - 1);
      SizePositive(alignment, Width(order, n) - 1);
    }
  }

  /** A pointer denotes an occupied node exactly when a block handed out starts there. */
  lemma TargetIsOccupied(alignment: nat, order: nat, units: nat, user: set<nat>, masked: set<nat>, live: set<nat>,
                         st: seq<nat>, memorySize: nat, addr: nat)
    requires Partition(order, units, user, masked, live) && Geometry(memorySize, alignment, units, order)
    requires Consistent(order, live, st) && addr < memorySize
    ensures var n := Target(alignment, order, st, addr);
            && n < |st|
            && (n != 0 && st[n] == Width(order, n) ==> n in live)
            && (n in live <==> n in user)
            && (n in user ==> BlockOf(alignment, order, n).offset == addr)
            && (n !in user ==> forall b | b in BlocksOf(alignment, order, user) :: b.offset != addr)
  {
    var n := Target(alignment, order, st, addr);
    TargetReleasable(alignment, order, units, user, masked, live, st, memorySize, addr);
    if n in masked { ScaleCompare(alignment, units, First(order, n)); }
    forall i | i in user && Scale(alignment, First(order, i)) == addr ensures n == i {
      TargetOfBlock(alignment, order, units, user, masked, live, st, memorySize, i);
    }
  }

  lemma TargetReleasable(alignment: nat, order: nat, units: nat, user: set<nat>, masked: set<nat>, live: set<nat>,
                         st: seq<nat>, memorySize: nat, addr: nat)
    requires Partition(order, units, user, masked, live) && Geometry(memorySize, alignment, units, order)
    requires Consistent(order, live, st) && addr < memorySize
    ensures var n := Target(alignment, order, st, addr);
            && n < |st|
            && (n != 0 && st[n] == Width(order, n) ==> n in live)
            && (n != 0 ==> Scale(alignment, First(order, n)) == addr)
  {
    hide Partition, Climb, Scale, First, Pow2, LocalOk, Antichain, Target, CeilLog;
    TargetMeans(alignment, order, st, addr);
    if Target(alignment, order, st, addr) != 0 {
      AddressLeaf(memorySize, alignment, units, order, addr);
      UnitsInRow(memorySize, alignment, units, order);
      ClimbFromUnit(order, live, st, addr / alignment);
    }
  }

  lemma UnitsInRow(memorySize: nat, alignment: nat, units: nat, order: nat)
    requires Geometry(memorySize, alignment, units, order)
    ensures units <= Pow2(order - 1)
  {
    GeometryFacts(memorySize, alignment, units, order);
  }

  lemma TargetMeans(alignment: nat, order: nat, st: seq<nat>, addr: nat)
    requires 0 < alignment && 0 < order && |st| == Pow2(order)
    ensures var n, leaf := Target(alignment, order, st, addr), Leaf(order, addr / alignment);
            && n < |st|
            && (n != 0 ==>
                  && addr % alignment == 0 && leaf < |st| && n == Climb(st, leaf)
                  && Scale(alignment, First(order, n)) == addr)
  {
    hide Climb, Scale, First, Pow2;
  }

  lemma TargetOfBlock(alignment: nat, order: nat, units: nat, user: set<nat>, masked: set<nat>, live: set<nat>,
                      st: seq<nat>, memorySize: nat, i: nat)
    requires Partition(order, units, user, masked, live) && Geometry(memorySize, alignment, units, order)
    requires Consistent(order, live, st) && i in user
    ensures Target(alignment, order, st, Scale(alignment, First(order, i))) == i
  {
    var u := First(order, i);
    ScaleDivides(alignment, u);
    LeafInTree(order, u);
    LeafUnder(order, i, u);
    ClimbMeaning(order, live, st, Leaf(order, u), i);
  }

  lemma ClimbFromUnit(order: nat, live: set<nat>, st: seq<nat>, u: nat)
    requires Consistent(order, live, st) && 0 < order && u < Pow2(order - 1)
    ensures Leaf(order, u) < |st|
    ensures var n := Climb(st, Leaf(order, u)); n != 0 && st[n] == Width(order, n) ==> n in live
  {
    LeafInTree(order, u);
    var leaf := Leaf(order, u);
    ClearMeans(live, leaf);
    if Clear(live, leaf) {
      ClimbMeaning(order, live, st, leaf, 0);
    } else {
      var j :| j in live && 0 < j && InSubtree(j, leaf);
      ClimbMeaning(order, live, st, leaf, j);
    }
  }

  /** The blocks that do not start at `ptr`. */
  ghost function Without(blocks: set<Block>, ptr: Option<int>): set<Block> {
    set b | b in blocks && Some(b.offset as int) != ptr
  }

  lemma OutsideBlocks(alignment: nat, order: nat, units: nat, user: set<nat>, memorySize: nat, addr: int)
    requires Geometry(memorySize, alignment, units, order)
    requires forall i | i in user :: 0 < i < Pow2(order) && End(order, i) <= units
    requires addr < 0 || addr >= memorySize
    ensures Without(BlocksOf(alignment, order, user), Some(addr)) == BlocksOf(alignment, order, user)
  {
    forall i | i in user ensures Scale(alignment, First(order, i)) < memorySize {
      ScaleCompare(alignment, units, First(order, i));
    }
  }

  /** A request of nothing counts as a request of one byte. */
  function Needed(requested: nat): (n: nat)
    ensures 1 <= n && requested <= n && (n == 1 || n == requested)
  {
    if requested == 0 then 1 else requested
  }

  /** Total size of the occupied nodes. */
  ghost function BytesUsed(alignment: nat, order: nat, nodes: set<nat>): nat {
    Scale(alignment, UsedUnits(nodes, 1, order))
  }

  lemma OccupyEffect(alignment: nat, order: nat, units: nat, user: set<nat>, masked: set<nat>, live: set<nat>, pos: Pos)
    requires Partition(order, units, user, masked, live)
    requires ValidPos(order, pos) && WhollyFree(live, pos.index)
    ensures Partition(order, units, user + {pos.index}, masked, live + {pos.index})
    ensures pos.depth <= order && Pow2(pos.depth - 1) <= pos.index
    ensures var size := SizeAt(alignment, order - pos.depth);
            var addr := Scale(size, pos.index - Pow2(pos.depth - 1));
            && addr == Scale(alignment, First(order, pos.index))
            && BlocksOf(alignment, order, user + {pos.index}) == BlocksOf(alignment, order, user) + {Block(addr, size)}
            && BytesUsed(alignment, order, user + {pos.index}) == BytesUsed(alignment, order, user) + size
  {
    hide UsedUnits, Scale, Pow2, WhollyFree, Depth, First, SizeAt, BlocksOf, Antichain, Masks;
    RowOffset(alignment, order, pos);
    AddBlock(alignment, order, user, pos.index);
    PartitionAdd(order, units, user, masked, live, pos.index);
    ScaleSum(alignment, UsedUnits(user, 1, order), Span(order, pos.index));
    SizeAtScales(alignment, order - pos.depth);
  }

  /** Offset and size of a node: its index in the row times the size of the row's blocks. */
  lemma RowOffset(alignment: nat, order: nat, pos: Pos)
    requires ValidPos(order, pos)
    ensures pos.depth <= order && Pow2(pos.depth - 1) <= pos.index
    ensures BlockOf(alignment, order, pos.index) ==
            Block(Scale(SizeAt(alignment, order - pos.depth), pos.index - Pow2(pos.depth - 1)),
                  SizeAt(alignment, order - pos.depth))
  {
    PositionOffset(alignment, order, pos);
    ScaleIsProduct(SizeAt(alignment, order - pos.depth), pos.index - Pow2(pos.depth - 1));
  }

  lemma RoomAt(alignment: nat, order: nat, units: nat, user: set<nat>, masked: set<nat>, live: set<nat>,
               memorySize: nat, pos: Pos)
    requires Partition(order, units, user, masked, live) && Geometry(memorySize, alignment, units, order)
    requires ValidPos(order, pos) && WhollyFree(live, pos.index)
    ensures pos.depth <= order && Pow2(pos.depth - 1) <= pos.index
    ensures Room(BlocksOf(alignment, order, user), memorySize, SizeAt(alignment, order - pos.depth),
                 pos.index - Pow2(pos.depth - 1))
  {
    var i := pos.index;
    RowOffset(alignment, order, pos);
    FreeInsideArena(order, units, masked, live, i);
    BlockEnd(alignment, order, i);
    ScaleCompare(alignment, End(order, i), units);
    FreeIffDisjoint(alignment, order, live, i);
    forall b | b in BlocksOf(alignment, order, user) ensures Disjoint(BlockOf(alignment, order, i), b) {
      var j :| j in user && 0 < j < Pow2(order) && b == BlockOf(alignment, order, j);
    }
  }

  lemma NothingFits(alignment: nat, order: nat, units: nat, user: set<nat>, masked: set<nat>, live: set<nat>,
                    memorySize: nat, depth: nat)
    requires Partition(order, units, user, masked, live) && Geometry(memorySize, alignment, units, order)
    requires 1 <= depth <= order && !HasFreeAt(live, 1, depth - 1)
    ensures NoRoom(BlocksOf(alignment, order, user), memorySize, SizeAt(alignment, order - depth))
  {
    var blocks, size := BlocksOf(alignment, order, user), SizeAt(alignment, order - depth);
    forall k: nat | Room(blocks, memorySize, size, k)
      ensures false
    {
      RoomIsFree(alignment, order, units, user, masked, live, memorySize, depth, k);
    }
  }

  lemma RoomIsFree(alignment: nat, order: nat, units: nat, user: set<nat>, masked: set<nat>, live: set<nat>,
                   memorySize: nat, depth: nat, k: nat)
    requires Partition(order, units, user, masked, live) && Geometry(memorySize, alignment, units, order)
    requires 1 <= depth <= order
    requires Room(BlocksOf(alignment, order, user), memorySize, SizeAt(alignment, order - depth), k)
    ensures ValidPos(order, Pos(Pow2(depth - 1) + k, depth)) && FreeAt(live, 1, depth - 1, Pow2(depth - 1) + k)
    ensures HasFreeAt(live, 1, depth - 1)
  {
    hide Pow2, CeilLog, UsedUnits, WhollyFree;
    RowOfArena(alignment, order, units, memorySize, depth, k);
    var pos := Pos(Pow2(depth - 1) + k, depth);
    RowOffset(alignment, order, pos);
    BlockEnd(alignment, order, pos.index);
    forall j | j in live ensures Disjoint(BlockOf(alignment, order, pos.index), BlockOf(alignment, order, j)) {
      if j in user {
        assert BlockOf(alignment, order, j) in BlocksOf(alignment, order, user);
      } else {
        ScaleCompare(alignment, units, First(order, j));
      }
    }
    FreeIffDisjoint(alignment, order, live, pos.index);
    RootAboveAll(pos.index);
    assert FreeAt(live, 1, depth - 1, pos.index);
  }

  lemma RowOfArena(alignment: nat, order: nat, units: nat, memorySize: nat, depth: nat, k: nat)
    requires Geometry(memorySize, alignment, units, order) && 1 <= depth <= order
    requires Scale(SizeAt(alignment, order - depth), k) + SizeAt(alignment, order - depth) <= memorySize
    ensures ValidPos(order, Pos(Pow2(depth - 1) + k, depth))
  {
    hide Pow2, CeilLog, SizeAt, ValidPos, Depth;
    GeometryFacts(memorySize, alignment, units, order);
    var size := SizeAt(alignment, order - depth);
    SizeRow(alignment, order - depth, depth - 1);
    SizePositive(alignment, order - depth);
    ScaleSum(size, k, 1);
    ScaleSum(size, 0, 1);
    ScaleCompare(size, k + 1, Pow2(depth - 1));
    RowMember(order, depth, k);
  }

  lemma RowMember(order: nat, depth: nat, k: nat)
    requires 1 <= depth <= order && k < Pow2(depth - 1)
    ensures ValidPos(order, Pos(Pow2(depth - 1) + k, depth))
  {
    Pow2Double(depth - 1);
    DepthUnique(Pow2(depth - 1) + k, depth);
    DepthBelow(order, Pow2(depth - 1) + k);
  }

  lemma {:induction false} SizeRow(alignment: nat, k: nat, d: nat)
    ensures SizeAt(alignment, k + d) == Scale(SizeAt(alignment, k), Pow2(d))
  {
    SizeAtScales(SizeAt(alignment, k), d);
    SizeAtTwice(alignment, k, d);
  }

  lemma {:induction false} SizeAtTwice(alignment: nat, k: nat, d: nat)
    ensures SizeAt(alignment, k + d) == SizeAt(SizeAt(alignment, k), d)
  {
    if d > 0 {
      SizeAtTwice(alignment, k, d - 1);
      assert k + d - 1 == k + (d - 1);
    }
  }

  lemma {:induction false} SizePositive(alignment: nat, k: nat)
    requires 0 < alignment
    ensures 0 < SizeAt(alignment, k)
  {
    if k > 0 { SizePositive(alignment, k - 1); }
  }

  lemma AddBlock(alignment: nat, order: nat, user: set<nat>, i: nat)
    requires 0 < i < Pow2(order)
    ensures BlocksOf(alignment, order, user + {i}) == BlocksOf(alignment, order, user) + {BlockOf(alignment, order, i)}
  {
  }

  lemma PositionOffset(alignment: nat, order: nat, pos: Pos)
    requires ValidPos(order, pos)
    ensures pos.depth <= order && Pow2(pos.depth - 1) <= pos.index
    ensures SizeAt(alignment, order - pos.depth) * (pos.index - Pow2(pos.depth - 1))
              == Scale(alignment, First(order, pos.index))
  {
    DepthInTree(order, pos.index);
    RowFirst(order, pos.index);
    SizeAtScales(alignment, order - pos.depth);
    ScaleIsProduct(alignment, Span(order, pos.index));
    ScaleIsProduct(alignment, First(order, pos.index));
    Associate(alignment, Span(order, pos.index), pos.index - Pow2(pos.depth - 1));
  }

  lemma CeilPow2Small(units: nat)
    requires 0 < units && 2 * units <= SIZE_MAX
    ensures Pow2(CeilLog(units)) <= SIZE_MAX
  {
    if CeilLog(units) > 0 { Pow2Double(CeilLog(units) - 1); }
  }

  lemma TopRight(order: nat)
    requires 1 < order
    ensures 3 < Pow2(order) && Depth(3) == 2
    ensures Span(order, 3) == Pow2(order - 2) && End(order, 3) == Pow2(order - 1)
    ensures Pow2(order - 1) == 2 * Pow2(order - 2)
    ensures WhollyFree({}, 3)
  {
    Pow2Double(order - 1);
    Pow2Double(order - 2);
    RootWidth(order);
    SpanHalves(order, 3);
    assert Depth(3) == 1 + Depth(1);
  }

  lemma InnerNode(order: nat, i: nat)
    requires 0 < i < Pow2(order) && 1 < Span(order, i)
    ensures 2 * i + 1 < Pow2(order)
    ensures Depth(2 * i) == Depth(2 * i + 1) == Depth(i) + 1
  {
    LeafWidth(order, i);
    ChildDepth(order, i);
  }

  lemma {:induction false} UnitsFit(alignment: nat, units: nat)
    requires 0 < alignment
    ensures units <= Scale(alignment, units)
  {
    if units > 0 { UnitsFit(alignment, units - 1); }
  }

  lemma TwiceFits(effective: nat, wanted: nat)
    requires 0 < wanted
    ensures ShiftRight(effective / wanted, 1) != 0 <==> 2 * wanted <= effective
  {
    var q := effective / wanted;
    assert effective == wanted * q + effective % wanted;
    assert ShiftRight(q, 1) == ShiftRight(q / 2, 0) == q / 2;
    if q >= 2 { MulMonotone(wanted, 2, q); }
    if q <= 1 { MulMonotone(wanted, q, 1); }
  }

  lemma OneStepDeeper(alignment: nat, k: nat, wanted: nat)
    requires 0 < alignment <= wanted && 2 * wanted <= SizeAt(alignment, k)
    ensures k > 0 && ShiftRight(SizeAt(alignment, k), 1) == SizeAt(alignment, k - 1)
    ensures wanted <= SizeAt(alignment, k - 1)
  {
    assert k > 0;
    assert ShiftRight(2 * SizeAt(alignment, k - 1), 1) == ShiftRight(SizeAt(alignment, k - 1), 0);
  }

  lemma Associate(a: nat, s: nat, row: nat)
    ensures (a * s) * row == a * (row * s)
  {
  }

  /** The sizes of a set of blocks, added up. */
  ghost function TotalSize(blocks: set<Block>): nat {
    if blocks == {} then 0
    else
      var b :| b in blocks;
      b.size + TotalSize(blocks - {b})
  }

  lemma {:induction false} TotalRemove(blocks: set<Block>, b: Block)
    requires b in blocks
    ensures TotalSize(blocks) == b.size + TotalSize(blocks - {b})
    decreases |blocks|
  {
    var c :| c in blocks && TotalSize(blocks) == c.size + TotalSize(blocks - {c});
    if c != b {
      TotalRemove(blocks - {c}, b);
      TotalRemove(blocks - {b}, c);
      assert blocks - {c} - {b} == blocks - {b} - {c};
    }
  }

  /** What the tree counts as used is the sum of the sizes of the blocks. */
  lemma {:induction false} UsedIsTotal(alignment: nat, order: nat, live: set<nat>)
    requires 0 < alignment && 0 < order && Antichain(order, live)
    ensures BytesUsed(alignment, order, live) == TotalSize(BlocksOf(alignment, order, live))
    decreases |live|
  {
    hide UsedUnits, BlockOf, BlocksOf, Clear, Pow2, Scale;
    if live == {} {
      NothingUsed(alignment, order);
    } else {
      var i :| i in live;
      AntichainRemove(order, live, i);
      UsedRemove(alignment, order, live, i);
      BlocksMinus(alignment, order, live, i);
      UsedIsTotal(alignment, order, live - {i});
      TotalRemove(BlocksOf(alignment, order, live), BlockOf(alignment, order, i));
    }
  }

  lemma NothingUsed(alignment: nat, order: nat)
    ensures BytesUsed(alignment, order, {}) == 0 && BlocksOf(alignment, order, {}) == {}
  {
    UsedNone({}, 1, order);
  }

  lemma UsedRemove(alignment: nat, order: nat, live: set<nat>, i: nat)
    requires 0 < alignment && 0 < order && Antichain(order, live) && i in live
    ensures BytesUsed(alignment, order, live)
              == BytesUsed(alignment, order, live - {i}) + BlockOf(alignment, order, i).size
  {
    hide UsedUnits, Scale, BlockOf, Clear, Pow2, Span;
    UnitsRemove(order, live, i);
    BlockBytes(alignment, order, i, UsedUnits(live - {i}, 1, order));
  }

  lemma BlockBytes(alignment: nat, order: nat, i: nat, used: nat)
    requires 0 < i < Pow2(order)
    ensures Scale(alignment, used + Span(order, i)) == Scale(alignment, used) + BlockOf(alignment, order, i).size
  {
    ScaleSum(alignment, used, Span(order, i));
    SizeAtScales(alignment, Width(order, i) - 1);
  }

  lemma UnitsRemove(order: nat, live: set<nat>, i: nat)
    requires 0 < order && Antichain(order, live) && i in live
    ensures UsedUnits(live, 1, order) == UsedUnits(live - {i}, 1, order) + Span(order, i)
  {
    hide UsedUnits, Clear, WhollyFree, InSubtree, Span, Pow2;
    RemovedIsFree(order, live, i);
    RootAboveAll(i);
    RootWidth(order);
    UsedAdd(order, live - {i}, i, 1);
    assert live - {i} + {i} == live;
  }

  lemma BlocksMinus(alignment: nat, order: nat, live: set<nat>, i: nat)
    requires 0 < alignment && Antichain(order, live) && i in live
    ensures BlockOf(alignment, order, i) in BlocksOf(alignment, order, live)
    ensures BlocksOf(alignment, order, live - {i}) == BlocksOf(alignment, order, live) - {BlockOf(alignment, order, i)}
  {
    RemoveBlock(alignment, order, live, live, i);
  }

  /** Blocks are inside the arena and pairwise disjoint. */
  ghost predicate WellPlaced(memorySize: nat, blocks: set<Block>) {
    && (forall b | b in blocks :: 0 < b.size && b.offset + b.size <= memorySize)
    && (forall b, c | b in blocks && c in blocks && b != c :: Disjoint(b, c))
  }

  lemma BlocksWellPlaced(memorySize: nat, alignment: nat, order: nat, units: nat, user: set<nat>, masked: set<nat>,
                         live: set<nat>)
    requires Partition(order, units, user, masked, live) && Geometry(memorySize, alignment, units, order)
    ensures WellPlaced(memorySize, BlocksOf(alignment, order, user))
    ensures BytesUsed(alignment, order, user) == TotalSize(BlocksOf(alignment, order, user))
  {
    var blocks := BlocksOf(alignment, order, user);
    forall b | b in blocks ensures 0 < b.size && b.offset + b.size <= memorySize {
      var i :| i in user && b == BlockOf(alignment, order, i);
      BlockEnd(alignment, order, i);
      ScaleCompare(alignment, End(order, i), units);
      SizePositive(alignment, Width(order, i) - 1);
    }
    forall b, c | b in blocks && c in blocks && b != c ensures Disjoint(b, c) {
      var i :| i in user && b == BlockOf(alignment, order, i);
      var j :| j in user && c == BlockOf(alignment, order, j);
      OccupiedDisjoint(alignment, order, live, i, j);
    }
    SubsetAntichain(order, user, live);
    UsedIsTotal(alignment, order, user);
  }

  lemma SubsetAntichain(order: nat, user: set<nat>, live: set<nat>)
    requires user <= live && Antichain(order, live)
    ensures Antichain(order, user)
  {
    forall i | i in user ensures Clear(user, i / 2) {
      ClearMeans(live, i / 2);
      ClearMeans(user, i / 2);
    }
  }
}
