/** Numbering of the buddy tree's nodes and the placement of their status fields in the bitset. */
module BuddyLayout {

  function Pow2(n: nat): (r: nat)
    ensures r >= 1
  {
    if n == 0 then 1 else 2 * Pow2(n - 1)
  }

  lemma {:induction false} Pow2Monotone(a: nat, b: nat)
    requires a <= b
    ensures Pow2(a) <= Pow2(b)
  {
    if a < b { Pow2Monotone(a, b - 1); }
  }

  lemma {:induction false} Pow2Sum(a: nat, b: nat)
    ensures Pow2(a + b) == Pow2(a) * Pow2(b)
  {
    if a > 0 {
      Pow2Sum(a - 1, b);
      assert Pow2(a + b) == 2 * Pow2(a - 1 + b);
    }
  }

  lemma {:induction false} Pow2Unbounded(n: nat)
    ensures n < Pow2(n)
  {
    if n > 0 { Pow2Unbounded(n - 1); }
  }

  /** Depth of node `i`; the root is node 1 at depth 1 and node `i` has children `2i` and `2i+1`. */
  function Depth(i: nat): (d: nat)
    requires i > 0
    ensures d >= 1
  {
    if i == 1 then 1 else 1 + Depth(i / 2)
  }

  lemma {:induction false} DepthBounds(i: nat)
    requires i > 0
    ensures Pow2(Depth(i) - 1) <= i < Pow2(Depth(i))
  {
    if i > 1 { DepthBounds(i / 2); }
  }

  lemma DepthUnique(i: nat, d: nat)
    requires i > 0 && d >= 1 && Pow2(d - 1) <= i < Pow2(d)
    ensures Depth(i) == d
  {
    DepthBounds(i);
    if Depth(i) < d {
      Pow2Monotone(Depth(i), d - 1);
    } else if d < Depth(i) {
      Pow2Monotone(d, Depth(i) - 1);
    }
  }

  lemma DepthInTree(order: nat, i: nat)
    requires 0 < i < Pow2(order)
    ensures Depth(i) <= order
  {
    DepthBounds(i);
    if order < Depth(i) { Pow2Monotone(order, Depth(i) - 1); }
  }

  lemma DepthBelow(order: nat, i: nat)
    requires i > 0 && Depth(i) <= order
    ensures i < Pow2(order)
  {
    DepthBounds(i);
    Pow2Monotone(Depth(i), order);
  }

  /** A position carries its index and its depth (struct buddy_tree_pos). */
  datatype Pos = Pos(index: nat, depth: nat)

  const INVALID_POS := Pos(0, 0)
  const ROOT := Pos(1, 1)

  ghost predicate ValidPos(order: nat, p: Pos) {
    0 < p.index < Pow2(order) && p.depth == Depth(p.index)
  }

  function LeftChild(p: Pos): Pos { Pos(2 * p.index, p.depth + 1) }
  function RightChild(p: Pos): Pos { Pos(2 * p.index + 1, p.depth + 1) }

  function Parent(p: Pos): Pos
    requires p.depth > 0
  {
    Pos(p.index / 2, p.depth - 1)
  }

  /** Number of status values above zero a node of this tree can take: its distance to the leaves plus one. */
  function Width(order: nat, i: nat): (w: nat)
    requires 0 < i < Pow2(order)
    ensures 0 < w <= order
  {
    DepthInTree(order, i);
    order - Depth(i) + 1
  }

  /** size_for_order: bits taken by the rows whose fields are wider than `to`. */
  function SizeForOrder(order: nat, to: nat): nat
    requires to <= order
  {
    if order == to then 0 else order + 2 * SizeForOrder(order - 1, to)
  }

  method ComputeSizeForOrder(order: nat, to: nat) returns (result: nat)
    requires to <= order
    ensures result == SizeForOrder(order, to)
  {
    result := 0;
    var multi, current := 1, order;
    while current != to
      invariant to <= current <= order && 0 < multi
      invariant result + multi * SizeForOrder(current, to) == SizeForOrder(order, to)
      decreases current
    {
      Distribute(multi, current, SizeForOrder(current - 1, to));
      result := result + current * multi;
      current := current - 1;
      multi := multi * 2;
    }
  }

  lemma Distribute(multi: nat, current: nat, rest: nat)
    ensures multi * (current + 2 * rest) == current * multi + (multi * 2) * rest
    ensures 0 <= current * multi
  {
  }

  /** Each further row adds `Pow2(order - to)` fields of `to` bits. */
  lemma {:induction false} SizeForOrderStep(order: nat, to: nat)
    requires 0 < to <= order
    ensures SizeForOrder(order, to - 1) == SizeForOrder(order, to) + to * Pow2(order - to)
  {
    if to < order {
      SizeForOrderStep(order - 1, to);
      var p := Pow2(order - 1 - to);
      assert Pow2(order - to) == 2 * p;
      assert to * (2 * p) == 2 * (to * p);
    } else {
      assert SizeForOrder(order - 1, to - 1) == 0;
    }
  }

  /** Bit location of the `k`-th field of the row whose fields are `w` bits wide. */
  function RowLocation(order: nat, w: nat, k: nat): nat
    requires w <= order
  {
    SizeForOrder(order, w) + w * k
  }

  lemma RowStep(order: nat, w: nat, k: nat)
    requires w <= order
    ensures RowLocation(order, w, k + 1) == RowLocation(order, w, k) + w
  {
    assert w * (k + 1) == w * k + w;
  }

  lemma RowEnd(order: nat, w: nat)
    requires 0 < w <= order
    ensures RowLocation(order, w, Pow2(order - w)) == RowLocation(order, w - 1, 0)
  {
    SizeForOrderStep(order, w);
  }

  /** Bit location of the status field of node `i`: the fields follow one another in index order. */
  ghost function Location(order: nat, i: nat): nat
    requires 0 < i <= Pow2(order)
  {
    if i == 1 then 0 else Location(order, i - 1) + Width(order, i - 1)
  }

  lemma NextLocation(order: nat, i: nat)
    requires 0 < i < Pow2(order)
    ensures Location(order, i + 1) == Location(order, i) + Width(order, i)
  {
  }

  /** buddy_tree_internal_position_tree: where the code looks for the field of a position. */
  function InternalLocation(order: nat, p: Pos): nat
    requires ValidPos(order, p)
  {
    DepthInTree(order, p.index);
    DepthBounds(p.index);
    RowLocation(order, order - p.depth + 1, p.index - Pow2(p.depth - 1))
  }

  lemma Pow2Double(d: nat)
    ensures Pow2(d + 1) == 2 * Pow2(d)
  {
  }

  lemma InternalLocationNext(order: nat, p: Pos, q: Pos)
    requires ValidPos(order, p) && ValidPos(order, q) && q.index == p.index + 1
    ensures InternalLocation(order, q) == InternalLocation(order, p) + Width(order, p.index)
  {
    var d := p.depth;
    hide RowLocation, Depth, Pow2;
    DepthInTree(order, p.index);
    DepthInTree(order, q.index);
    DepthBounds(p.index);
    RowStep(order, order - d + 1, p.index - Pow2(d - 1));
    if q.index < Pow2(d) {
      DepthUnique(q.index, d);
    } else {
      Pow2Double(d);
      Pow2Double(d - 1);
      DepthUnique(q.index, d + 1);
      RowEnd(order, order - d + 1);
    }
  }

  /** The code's closed form finds the field. */
  lemma {:induction false} InternalLocationIsLocation(order: nat, p: Pos)
    requires ValidPos(order, p)
    ensures InternalLocation(order, p) == Location(order, p.index)
    decreases p.index
  {
    if p.index == 1 {
      assert SizeForOrder(order, order) == 0;
    } else {
      var j := p.index - 1;
      var before := Pos(j, Depth(j));
      InternalLocationIsLocation(order, before);
      InternalLocationNext(order, before, p);
    }
  }

  /** The lowest row has fields of one bit; no field is narrower. */
  lemma LastRow(order: nat, p: Pos)
    requires 0 < order && ValidPos(order, p) && p.depth == order
    ensures Width(order, p.index) == 1 && Pow2(order - 1) <= p.index
    ensures InternalLocation(order, p) == RowLocation(order, 1, p.index - Pow2(order - 1))
  {
    hide RowLocation, Depth, Pow2;
    DepthInTree(order, p.index);
    DepthBounds(p.index);
  }

  lemma RowStart(order: nat, w: nat)
    requires w <= order
    ensures RowLocation(order, w, 0) == SizeForOrder(order, w)
  {
    hide SizeForOrder;
  }

  /** The bits of all fields together: the size the code reserves for the bitset. */
  lemma LocationEnd(order: nat)
    requires 0 < order
    ensures Location(order, Pow2(order)) == SizeForOrder(order, 0)
  {
    hide Location, InternalLocation, RowLocation, SizeForOrder, Depth, Width, Pow2;
    Pow2Double(order - 1);
    var last := Pow2(order) - 1;
    DepthUnique(last, order);
    NextLocation(order, last);
    LastRow(order, Pos(last, order));
    InternalLocationIsLocation(order, Pos(last, order));
    RowStep(order, 1, last - Pow2(order - 1));
    RowEnd(order, 1);
    RowStart(order, 0);
  }

  /** Fields of distinct nodes do not overlap. */
  lemma {:induction false} LocationDisjoint(order: nat, i: nat, j: nat)
    requires 0 < i < j <= Pow2(order)
    ensures Location(order, i) + Width(order, i) <= Location(order, j)
    decreases j
  {
    if i < j - 1 { LocationDisjoint(order, i, j - 1); }
  }

  /** Every field lies inside the bitset. */
  lemma LocationInBounds(order: nat, i: nat)
    requires 0 < i < Pow2(order)
    ensures Location(order, i) + Width(order, i) <= SizeForOrder(order, 0)
  {
    DepthInTree(order, i);
    LocationEnd(order);
    LocationDisjoint(order, i, Pow2(order));
  }

  function Sibling(i: nat): nat
    requires 0 < i
  {
    if i % 2 == 0 then i + 1 else i - 1
  }

  lemma SiblingInRow(order: nat, i: nat)
    requires 1 < i < Pow2(order)
    ensures 0 < Sibling(i) < Pow2(order) && Depth(Sibling(i)) == Depth(i)
  {
    DepthInTree(order, i);
    var d := Depth(i);
    DepthBounds(i);
    Pow2Double(d - 1);
    Pow2Double(d - 2);
    DepthUnique(Sibling(i), d);
    DepthBelow(order, Sibling(i));
  }

  /** The sibling's field is reached by stepping one width right or left (update_parent_chain). */
  lemma LocationSibling(order: nat, i: nat)
    requires 1 < i < Pow2(order)
    ensures 0 < Sibling(i) < Pow2(order) && Width(order, Sibling(i)) == Width(order, i)
    ensures Location(order, Sibling(i))
              == Location(order, i) + Width(order, i) - if i % 2 == 1 then 2 * Width(order, i) else 0
  {
    SiblingInRow(order, i);
  }
}
