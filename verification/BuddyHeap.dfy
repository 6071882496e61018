/** The memory that the nodes of the buddy tree stand for, in bytes from the start of the arena. */
module BuddyHeap {
  import opened Wrappers
  import opened BuddyArith
  import opened BuddyLayout
  import opened BuddyStatus
  import opened BuddyBlocks
  import opened BuddyTree

  /** A piece of memory, as byte offsets from the start of the arena. */
  datatype Block = Block(offset: nat, size: nat)

  ghost predicate Disjoint(a: Block, b: Block) {
    a.offset + a.size <= b.offset || b.offset + b.size <= a.offset
  }

  /** `n` units in bytes: `alignment * n` (see ScaleIsProduct), as repeated addition. */
  function Scale(alignment: nat, n: nat): nat {
    if n == 0 then 0 else alignment + Scale(alignment, n - 1)
  }

  lemma {:induction false} ScaleIsProduct(alignment: nat, n: nat)
    ensures Scale(alignment, n) == alignment * n
  {
    if n > 0 { ScaleIsProduct(alignment, n - 1); Distribute(alignment, n - 1, 1); }
  }

  lemma {:induction false} ScaleDivides(a: nat, n: nat)
    requires 0 < a
    ensures Scale(a, n) % a == 0 && Scale(a, n) / a == n
  {
    if n > 0 {
      ScaleDivides(a, n - 1);
      AddMod(a, Scale(a, n - 1));
    } else {
      DivModUnique(0, a, 0, 0);
    }
  }

  lemma ScaleOfQuotient(a: nat, x: nat)
    requires 0 < a && x % a == 0
    ensures Scale(a, x / a) == x
  {
    ScaleIsProduct(a, x / a);
  }

  lemma {:induction false} ScaleSum(alignment: nat, m: nat, n: nat)
    ensures Scale(alignment, m + n) == Scale(alignment, m) + Scale(alignment, n)
  {
    if n > 0 {
      ScaleSum(alignment, m, n - 1);
      assert m + n - 1 == m + (n - 1);
    }
  }

  lemma ScaleCompare(alignment: nat, m: nat, n: nat)
    requires 0 < alignment
    ensures Scale(alignment, m) <= Scale(alignment, n) <==> m <= n
    ensures Scale(alignment, m) == Scale(alignment, n) <==> m == n
  {
    if m < n {
      ScaleSum(alignment, m + 1, n - m - 1);
      ScaleSum(alignment, m, 1);
    } else if n < m {
      ScaleSum(alignment, n + 1, m - n - 1);
      ScaleSum(alignment, n, 1);
    }
  }

  /** Bytes of a block `k` rows above the leaves: the alignment doubled `k` times. */
  function SizeAt(alignment: nat, k: nat): nat {
    if k == 0 then alignment else 2 * SizeAt(alignment, k - 1)
  }

  lemma {:induction false} SizeAtScales(alignment: nat, k: nat)
    ensures SizeAt(alignment, k) == Scale(alignment, Pow2(k))
  {
    if k > 0 {
      SizeAtScales(alignment, k - 1);
      ScaleSum(alignment, Pow2(k - 1), Pow2(k - 1));
    } else {
      ScaleSum(alignment, 0, 1);
    }
  }

  /** Bytes handed out for a request of `n`: the smallest `alignment * 2^k` that holds it. */
  ghost predicate Fits(alignment: nat, n: nat, size: nat) {
    var wanted := if n < alignment then alignment else n;
    && wanted <= size < 2 * wanted
    && exists k: nat :: size == SizeAt(alignment, k)
  }

  ghost function BlockOf(alignment: nat, order: nat, i: nat): Block
    requires 0 < i < Pow2(order)
  {
    Block(Scale(alignment, First(order, i)), SizeAt(alignment, Width(order, i) - 1))
  }

  ghost function BlocksOf(alignment: nat, order: nat, nodes: set<nat>): set<Block> {
    set i | i in nodes && 0 < i < Pow2(order) :: BlockOf(alignment, order, i)
  }

  lemma Distribute(a: nat, x: nat, y: nat)
    ensures a * (x + y) == a * x + a * y
  {
  }

  lemma BlockEnd(alignment: nat, order: nat, i: nat)
    requires 0 < i < Pow2(order)
    ensures BlockOf(alignment, order, i).offset + BlockOf(alignment, order, i).size == Scale(alignment, End(order, i))
  {
    SizeAtScales(alignment, Width(order, i) - 1);
    ScaleSum(alignment, First(order, i), Span(order, i));
  }

  /** Distinct occupied nodes are disjoint pieces of memory. */
  lemma OccupiedDisjoint(alignment: nat, order: nat, live: set<nat>, i: nat, j: nat)
    requires 0 < alignment && Antichain(order, live) && i in live && j in live && i != j
    ensures Disjoint(BlockOf(alignment, order, i), BlockOf(alignment, order, j))
  {
    ClearMeans(live, i / 2);
    ClearMeans(live, j / 2);
    Apart(order, i, j);
    BlockEnd(alignment, order, i);
    BlockEnd(alignment, order, j);
    if End(order, i) <= First(order, j) {
      ScaleCompare(alignment, End(order, i), First(order, j));
    } else {
      ScaleCompare(alignment, End(order, j), First(order, i));
    }
  }

  /** A node is wholly free exactly when its memory meets no occupied node's memory. */
  lemma FreeIffDisjoint(alignment: nat, order: nat, live: set<nat>, i: nat)
    requires 0 < alignment && Antichain(order, live) && 0 < i < Pow2(order)
    ensures WhollyFree(live, i) <==>
            forall j | j in live :: Disjoint(BlockOf(alignment, order, i), BlockOf(alignment, order, j))
  {
    ClearMeans(live, i);
    forall j | j in live
      ensures Disjoint(BlockOf(alignment, order, i), BlockOf(alignment, order, j)) <==>
                !InSubtree(i, j) && !InSubtree(j, i)
    {
      BlockEnd(alignment, order, i);
      BlockEnd(alignment, order, j);
      if InSubtree(i, j) {
        NestedOverlap(alignment, order, i, j);
      } else if InSubtree(j, i) {
        NestedOverlap(alignment, order, j, i);
      } else {
        Apart(order, i, j);
        if End(order, i) <= First(order, j) {
          ScaleCompare(alignment, End(order, i), First(order, j));
        } else {
          ScaleCompare(alignment, End(order, j), First(order, i));
        }
      }
    }
  }

  lemma NestedOverlap(alignment: nat, order: nat, i: nat, j: nat)
    requires 0 < alignment && InSubtree(i, j) && j < Pow2(order)
    ensures !Disjoint(BlockOf(alignment, order, i), BlockOf(alignment, order, j))
  {
    Nested(order, i, j);
    BlockEnd(alignment, order, i);
    BlockEnd(alignment, order, j);
    ScaleCompare(alignment, First(order, i), First(order, j));
    ScaleCompare(alignment, End(order, j), End(order, i));
    ScaleCompare(alignment, End(order, j), First(order, i));
    ScaleCompare(alignment, End(order, i), First(order, j));
  }

  /** The geometry of an arena: `units` smallest blocks under a tree of the given order. */
  ghost predicate Geometry(memorySize: nat, alignment: nat, units: nat, order: nat) {
    && 0 < alignment && alignment == Pow2(CeilLog(alignment))
    && 0 < units && memorySize == Scale(alignment, units)
    && order == CeilLog(units) + 1
    && 2 * memorySize <= SIZE_MAX
  }

  lemma GeometryFacts(memorySize: nat, alignment: nat, units: nat, order: nat)
    requires Geometry(memorySize, alignment, units, order)
    ensures 0 < memorySize && units <= Pow2(order - 1)
    ensures order > 1 ==> Pow2(order - 2) < units
    ensures CeilLog(memorySize) == CeilLog(alignment) + order - 1
    ensures Pow2(CeilLog(memorySize)) == SizeAt(alignment, order - 1)
    ensures memorySize <= SizeAt(alignment, order - 1)
  {
    var p, k := CeilLog(alignment), order - 1;
    Pow2Sum(p, k);
    SizeAtScales(alignment, k);
    ScaleIsProduct(alignment, Pow2(k));
    ScaleCompare(alignment, units, Pow2(k));
    ScaleCompare(alignment, 0, units);
    if k > 0 {
      Pow2Sum(p, k - 1);
      ScaleIsProduct(alignment, Pow2(k - 1));
      ScaleCompare(alignment, units, Pow2(k - 1));
    }
    CeilLogUnique(memorySize, p + k);
  }

  lemma {:induction false} ShiftSize(alignment: nat, k: nat, c: nat)
    requires c <= k
    ensures ShiftRight(SizeAt(alignment, k), c) == SizeAt(alignment, k - c)
  {
    if c > 0 { ShiftSize(alignment, k - 1, c - 1); }
  }
}
