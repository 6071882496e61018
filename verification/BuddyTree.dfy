/** The buddy tree proper: statuses packed in unary in a byte array, and the operations on them. */
module BuddyTree {
  import opened BuddyBitset
  import opened BuddyLayout
  import opened BuddyStatus
  import opened BuddyFit

  /** The field of node `i` holds `value`. */
  ghost predicate FieldHolds(order: nat, s: seq<bv8>, i: nat, value: nat) {
    && 0 < i < Pow2(order)
    && Location(order, i) + Width(order, i) <= 8 * |s|
    && Unary(s, Location(order, i), Width(order, i), value)
  }

  /** The packed bytes hold exactly the statuses `st`. */
  ghost predicate Encodes(order: nat, s: seq<bv8>, st: seq<nat>) {
    && |st| == Pow2(order)
    && forall i | 0 < i < |st| :: FieldHolds(order, s, i, st[i])
  }

  /** Writing one field leaves the fields of all other nodes as they were. */
  lemma OtherFieldUnchanged(order: nat, s: seq<bv8>, s': seq<bv8>, i: nat, j: nat, value: nat)
    requires 0 < i < Pow2(order) && i != j && FieldHolds(order, s, j, value) && |s'| == |s|
    requires forall b: nat | b < 8 * |s| && !(Location(order, i) <= b < Location(order, i) + Width(order, i)) ::
               BitAt(s', b) == BitAt(s, b)
    ensures FieldHolds(order, s', j, value)
  {
    if i < j { LocationDisjoint(order, i, j); } else { LocationDisjoint(order, j, i); }
  }

  class Tree {
    const order: nat
    const bits: array<bv8>
    ghost var st: seq<nat>
    ghost var live: set<nat>

    ghost predicate Encoded()
      reads this, bits
    {
      Encodes(order, bits[..], st)
    }

    ghost predicate Valid()
      reads this, bits
    {
      0 < order && Encoded() && Consistent(order, live, st)
    }

    constructor (order: nat)
      requires 0 < order
      ensures Valid() && fresh(bits) && this.order == order && live == {}
    {
      this.order := order;
      bits := new bv8[(SizeForOrder(order, 0) + 7) / 8](_ => 0);
      st := seq(Pow2(order), _ => 0);
      live := {};
      new;
      forall i | 0 < i < |st| ensures FieldHolds(order, bits[..], i, 0) {
        LocationInBounds(order, i);
        forall b: nat | b < 8 * bits.Length ensures !BitAt(bits[..], b) { ZeroByte(b % 8); }
      }
    }

    /** Reads the field at a location known to belong to node `i`. */
    method ReadAt(location: nat, width: nat, ghost i: nat) returns (value: nat)
      requires Encoded() && 0 < i < Pow2(order)
      requires location == Location(order, i) && width == Width(order, i)
      ensures value == st[i]
    {
      assert FieldHolds(order, bits[..], i, st[i]);
      value := ReadField(bits, location, width, st[i]);
    }

    /** Compares the field at a location known to belong to node `i` by testing one bit. */
    method AtLeastAt(location: nat, width: nat, bound: nat, ghost i: nat) returns (r: bool)
      requires Encoded() && 0 < i < Pow2(order)
      requires location == Location(order, i) && 0 < bound <= width == Width(order, i)
      ensures r <==> st[i] >= bound
    {
      assert FieldHolds(order, bits[..], i, st[i]);
      r := FieldAtLeast(bits, location, width, bound, st[i]);
    }

    method LocationOf(p: Pos) returns (location: nat, width: nat)
      requires ValidPos(order, p)
      ensures location == Location(order, p.index) && width == Width(order, p.index)
    {
      InternalLocationIsLocation(order, p);
      location := InternalLocation(order, p);
      DepthInTree(order, p.index);
      width := order - p.depth + 1;
    }

    method ReadStatus(p: Pos) returns (value: nat)
      requires Encoded() && ValidPos(order, p)
      ensures value == st[p.index]
    {
      var location, width := LocationOf(p);
      value := ReadAt(location, width, p.index);
    }

    method WriteStatus(p: Pos, value: nat)
      requires Encoded() && ValidPos(order, p) && value <= Width(order, p.index)
      modifies this`st, bits
      ensures Encoded() && st == old(st)[p.index := value]
    {
      ghost var before := bits[..];
      var location, width := LocationOf(p);
      assert FieldHolds(order, bits[..], p.index, st[p.index]);
      WriteField(bits, location, width, value);
      forall j | 0 < j < |st| && j != p.index ensures FieldHolds(order, bits[..], j, st[j]) {
        OtherFieldUnchanged(order, before, bits[..], p.index, j, st[j]);
      }
      st := st[p.index := value];
    }

    /** Status of the sibling, found by stepping one field right or left of the node's own field. */
    method ReadSibling(p: Pos) returns (value: nat)
      requires Encoded() && ValidPos(order, p) && p.index != 1
      ensures 0 < Sibling(p.index) < |st| && value == st[Sibling(p.index)]
    {
      LocationSibling(order, p.index);
      var location, width := LocationOf(p);
      var back := if p.index % 2 == 1 then 2 * width else 0;
      value := ReadAt(location + width - back, width, Sibling(p.index));
    }

    /**
     * update_parent_chain: repairs the statuses above `start`, whose own status was just set to
     * `size`. Stopping at the first parent that needs no change is enough.
     */
    method UpdateParentChain(start: Pos, size: nat)
      requires Encoded() && ValidPos(order, start) && st[start.index] == size
      requires Pending(order, live, st, start.index / 2)
      modifies this`st, bits
      ensures Encoded() && Consistent(order, live, st)
    {
      var pos, current := start, size;
      while pos.index != 1
        invariant Encoded() && ValidPos(order, pos) && st[pos.index] == current
        invariant Pending(order, live, st, pos.index / 2)
        decreases pos.index
      {
        var siblingStatus := ReadSibling(pos);
        RepairStep(order, live, st, pos.index);
        pos := Parent(pos);
        var parentStatus := ReadStatus(pos);
        var target := Join(current, siblingStatus);
        if target == parentStatus {
          return;
        }
        WriteStatus(pos, target);
        current := target;
      }
      PendingAboveRoot(order, live, st);
    }

    /** buddy_tree_mark: occupies a wholly free position. */
    method Mark(pos: Pos)
      requires Valid() && ValidPos(order, pos) && WhollyFree(live, pos.index)
      modifies this, bits
      ensures Valid() && live == old(live) + {pos.index}
    {
      MarkPending(order, live, st, pos.index);
      live := live + {pos.index};
      WriteStatus(pos, Width(order, pos.index));
      UpdateParentChain(pos, Width(order, pos.index));
    }

    /** buddy_tree_release: frees an occupied position; a partially used one is refused. */
    method Release(pos: Pos) returns (released: bool)
      requires Valid() && ValidPos(order, pos)
      requires st[pos.index] == Width(order, pos.index) ==> pos.index in live
      modifies this, bits
      ensures Valid()
      ensures released <==> pos.index in old(live)
      ensures live == old(live) - {pos.index}
    {
      assert LocalOk(order, live, st, pos.index);
      var status := ReadStatus(pos);
      if status != Width(order, pos.index) {
        return false;
      }
      ReleasePending(order, live, st, pos.index);
      live := live - {pos.index};
      WriteStatus(pos, 0);
      UpdateParentChain(pos, 0);
      released := true;
    }

    /** One level of the search, by single bit tests and at most one full read. */
    method PickChild(pos: Pos, targetStatus: nat) returns (child: Pos)
      requires Valid() && ValidPos(order, pos) && targetStatus + 1 < Width(order, pos.index)
      ensures 2 * pos.index + 1 < |st|
      ensures child
              == if Preferred(st, pos.index, targetStatus) == 2 * pos.index then LeftChild(pos) else RightChild(pos)
    {
      hide Encodes, LocalOk, Antichain, Pow2, Width, Location, Depth;
      ChildrenInTree(order, pos.index);
      ChildDepth(order, pos.index);
      NextLocation(order, 2 * pos.index);
      var left, right := LeftChild(pos), RightChild(pos);
      var leftLocation, width := LocationOf(left);
      var rightLocation := leftLocation + width;
      var leftBusy := AtLeastAt(leftLocation, width, targetStatus + 1, left.index);
      if leftBusy {
        return right;
      }
      var rightBusy := AtLeastAt(rightLocation, width, targetStatus + 1, right.index);
      if rightBusy {
        return left;
      }
      var rightStatus := ReadAt(rightLocation, width, right.index);
      if rightStatus == 0 {
        return left;
      }
      var leftBusier := AtLeastAt(leftLocation, width, rightStatus, left.index);
      child := if leftBusier then left else right;
    }

    /**
     * buddy_tree_find_free: finds a wholly free position of the given depth whenever there is one, the
     * one that leaves most of the rest and on ties the leftmost.
     */
    method FindFree(targetDepth: nat) returns (pos: Pos)
      requires Valid() && 1 <= targetDepth <= order
      ensures pos == INVALID_POS <==> !HasFreeAt(live, 1, targetDepth - 1)
      ensures pos != INVALID_POS ==>
                && ValidPos(order, pos) && pos.depth == targetDepth
                && WhollyFree(live, pos.index)
                && LeavesMost(order, live, targetDepth - 1, pos.index) && OnPath(live, 1, pos.index)
    {
      RootWidth(order);
      pos := ROOT;
      var targetStatus := targetDepth - 1;
      StatusMeaning(order, live, st, 1, targetStatus);
      var rootStatus := ReadStatus(pos);
      if rootStatus > targetStatus {
        return INVALID_POS;
      }
      DescendFindsFree(order, live, st, 1, targetStatus);
      SearchLeavesMost(order, live, st, targetStatus);
      SearchOnPath(order, live, st, 1, targetStatus);
      pos := Search(targetDepth);
    }

    /** From the root down, one preferred child at a time. */
    method Search(targetDepth: nat) returns (pos: Pos)
      requires Valid() && 1 <= targetDepth <= order
      ensures ValidPos(order, pos) && pos.depth == targetDepth && pos.index == Descend(order, st, 1, targetDepth - 1)
    {
      RootWidth(order);
      pos := ROOT;
      var targetStatus := targetDepth - 1;
      var currentDepth := 1;
      while currentDepth != targetDepth
        invariant ValidPos(order, pos) && pos.depth == currentDepth <= targetDepth
        invariant targetStatus == targetDepth - currentDepth
        invariant Descend(order, st, pos.index, targetStatus) == Descend(order, st, 1, targetDepth - 1)
        decreases targetDepth - currentDepth
      {
        hide Encodes, LocalOk, Antichain, Pow2, Depth, Preferred;
        targetStatus := targetStatus - 1;
        currentDepth := currentDepth + 1;
        DescendStep(order, st, pos.index, targetStatus);
        pos := PickChild(pos, targetStatus);
      }
    }
  }

  lemma ZeroByte(k: nat)
    requires k < 8
    ensures !Bit(0, k)
  {
  }
}
