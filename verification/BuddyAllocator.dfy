/** The allocator object: malloc, free, the masking of a tail that is not a power of two, the free-size walk. */
module BuddyAllocator {
  import opened Wrappers
  import opened BuddyArith
  import opened BuddyLayout
  import opened BuddyStatus
  import opened BuddyBlocks
  import opened BuddyHeap
  import opened BuddyTree
  import opened BuddyArena
  import opened BuddyFit
  import opened BuddyPlacement

  /** struct buddy_tree_walk_state, for walks of the whole tree. */
  datatype WalkState = WalkState(pos: Pos, goingUp: bool, done: bool)

  class Buddy {
    const memorySize: nat
    const alignment: nat
    const tree: Tree
    ghost const units: nat
    ghost var user: set<nat>
    ghost var masked: set<nat>

    ghost predicate Shaped()
      reads this, tree, tree.bits
    {
      && Geometry(memorySize, alignment, units, tree.order)
      && tree.Valid()
    }

    ghost predicate Valid()
      reads this, tree, tree.bits
    {
      Shaped() && Partition(tree.order, units, user, masked, tree.live)
    }

    /** The blocks currently handed out. */
    ghost function Blocks(): set<Block>
      reads this
    {
      BlocksOf(alignment, tree.order, user)
    }

    /** buddy_init_alignment for an arena already trimmed to the alignment. */
    constructor (units: nat, alignment: nat)
      requires 0 < units && 0 < alignment == Pow2(CeilLog(alignment)) && 2 * Scale(alignment, units) <= SIZE_MAX
      ensures Valid() && Blocks() == {} && memorySize == Scale(alignment, units) && this.alignment == alignment
      ensures fresh(tree) && fresh(tree.bits)
    {
      UnitsFit(alignment, units);
      var blocks := CeilingPowerOfTwo(units);
      CeilPow2Small(units);
      var order := HighestBitPosition(blocks);
      BitLengthPow2(CeilLog(units));
      this.memorySize := Scale(alignment, units);
      this.alignment := alignment;
      this.units := units;
      tree := new Tree(order);
      user := {};
      masked := {};
      new;
      MaskTail();
      EmptyPartition(order, units, masked);
    }

    /** buddy_toggle_virtual_slots: occupies nodes covering exactly the tail up to the next power of two. */
    method MaskTail()
      requires Shaped() && tree.live == {} && user == {}
      modifies this`masked, tree, tree.bits
      ensures Shaped() && tree.live == masked
      ensures MaskedFrom(tree.order, units, masked)
    {
      masked := {};
      GeometryFacts(memorySize, alignment, units, tree.order);
      var effective := CeilingPowerOfTwo(memorySize);
      MaskStart(memorySize, alignment, units, tree.order);
      if effective != memorySize {
        MaskRest(RightChild(ROOT), effective - memorySize);
      }
    }

    /** The loop of buddy_toggle_virtual_slots. */
    method MaskRest(start: Pos, size: nat)
      requires Shaped() && tree.live == masked && size != 0
      requires Masking(alignment, tree.order, units, masked, start, size)
      modifies this`masked, tree, tree.bits
      ensures Shaped() && tree.live == masked
      ensures MaskedFrom(tree.order, units, masked)
    {
      var pos, delta := start, size;
      while delta != 0
        invariant Shaped() && tree.live == masked
        invariant delta != 0 ==> Masking(alignment, tree.order, units, masked, pos, delta)
        invariant delta == 0 ==> MaskedFrom(tree.order, units, masked)
        decreases tree.order - pos.depth, delta
      {
        pos, delta := MaskOne(pos, delta);
      }
    }

    /** One iteration of the masking loop; nothing is left after the one that fits exactly. */
    method MaskOne(pos: Pos, delta: nat) returns (next: Pos, rest: nat)
      requires Shaped() && tree.live == masked && delta != 0
      requires Masking(alignment, tree.order, units, masked, pos, delta)
      modifies this`masked, tree, tree.bits
      ensures Shaped() && tree.live == masked
      ensures rest == 0 ==> next == pos && MaskedFrom(tree.order, units, masked)
      ensures rest != 0 ==>
                pos.depth < next.depth <= tree.order && Masking(alignment, tree.order, units, masked, next, rest)
    {
      MaskExactly(alignment, tree.order, units, masked, pos, delta);
      var size := SizeForDepth(pos.depth);
      if delta == size {
        tree.Mark(pos);
        masked := tree.live;
        return pos, 0;
      }
      MaskHalf(alignment, tree.order, units, masked, pos, delta);
      if delta <= size / 2 {
        return RightChild(pos), delta;
      }
      tree.Mark(RightChild(pos));
      masked := tree.live;
      next, rest := LeftChild(pos), delta - size / 2;
    }

    /** size_for_depth */
    method SizeForDepth(depth: nat) returns (size: nat)
      requires Geometry(memorySize, alignment, units, tree.order) && 1 <= depth <= tree.order
      ensures size == SizeAt(alignment, tree.order - depth)
    {
      GeometryFacts(memorySize, alignment, units, tree.order);
      var effective := CeilingPowerOfTwo(memorySize);
      size := ShiftRight(effective, depth - 1);
      ShiftSize(alignment, tree.order - 1, depth - 1);
    }

    /** depth_for_size: the deepest row whose blocks still hold the request. */
    method DepthForSize(requested: nat) returns (depth: nat)
      requires Geometry(memorySize, alignment, units, tree.order)
      requires 0 < requested <= memorySize
      ensures 1 <= depth <= tree.order
      ensures Fits(alignment, requested, SizeAt(alignment, tree.order - depth))
    {
      hide ShiftRight, Pow2, CeilLog;
      GeometryFacts(memorySize, alignment, units, tree.order);
      ScaleCompare(alignment, 1, units);
      ScaleSum(alignment, 0, 1);
      var wanted := if requested < alignment then alignment else requested;
      depth := 1;
      var effective := CeilingPowerOfTwo(memorySize);
      var more := CanHalve(effective, wanted);
      while more
        invariant 1 <= depth <= tree.order
        invariant effective == SizeAt(alignment, tree.order - depth)
        invariant alignment <= wanted <= effective
        invariant more <==> 2 * wanted <= effective
        decreases tree.order - depth
      {
        OneStepDeeper(alignment, tree.order - depth, wanted);
        depth := depth + 1;
        effective := ShiftRight(effective, 1);
        more := CanHalve(effective, wanted);
      }
    }

    /** address_for_position, as an offset into the arena. */
    method AddressForPosition(pos: Pos) returns (addr: nat)
      requires Geometry(memorySize, alignment, units, tree.order) && ValidPos(tree.order, pos)
      ensures addr == Scale(alignment, First(tree.order, pos.index))
    {
      DepthInTree(tree.order, pos.index);
      PositionOffset(alignment, tree.order, pos);
      var blockSize := SizeForDepth(pos.depth);
      addr := blockSize * (pos.index - Pow2(pos.depth - 1));
    }

    /**
     * buddy_malloc. On success one block is added: of the smallest size that holds the request,
     * aligned to that size, inside the arena and apart from every other block. Failure means that
     * the arena has no such place. Of all places the block takes one that leaves room for the largest
     * block possible; an empty arena hands out its start, unless the block fits beyond the largest
     * power of two within the arena.
     */
    method Malloc(requested: nat) returns (ptr: Option<nat>, ghost size: nat)
      requires Valid()
      modifies this`user, tree, tree.bits
      ensures Valid()
      ensures ptr.None? ==> Blocks() == old(Blocks()) && Allocated() == old(Allocated())
      ensures ptr.None? && Needed(requested) <= memorySize ==>
                Fits(alignment, Needed(requested), size) && NoRoom(old(Blocks()), memorySize, size)
      ensures ptr.Some? ==>
                && Needed(requested) <= memorySize && Fits(alignment, Needed(requested), size)
                && HasRoom(old(Blocks()), memorySize, size, ptr.value)
                && Blocks() == old(Blocks()) + {Block(ptr.value, size)}
                && Allocated() == old(Allocated()) + size
                && LeavesMostRoom(old(Blocks()), Blocks(), memorySize, alignment, size)
      ensures ptr.Some? && old(Blocks()) == {} ==> StartFirst(memorySize, size, ptr.value)
    {
      hide LeavesMostRoom, NoRoom, HasRoom, StartFirst;
      var n := Needed(requested);
      size := 0;
      if n > memorySize {
        return None, size;
      }
      var depth := DepthForSize(n);
      size := SizeAt(alignment, tree.order - depth);
      ptr := AllocateAtDepth(depth);
    }

    /** Finds and occupies a free block of the given row. */
    method AllocateAtDepth(depth: nat) returns (ptr: Option<nat>)
      requires Valid() && 1 <= depth <= tree.order
      modifies this`user, tree, tree.bits
      ensures Valid()
      ensures ptr.None? ==>
                && Blocks() == old(Blocks()) && Allocated() == old(Allocated())
                && NoRoom(Blocks(), memorySize, SizeAt(alignment, tree.order - depth))
      ensures ptr.Some? ==>
                var size := SizeAt(alignment, tree.order - depth);
                && HasRoom(old(Blocks()), memorySize, size, ptr.value)
                && Blocks() == old(Blocks()) + {Block(ptr.value, size)}
                && Allocated() == old(Allocated()) + size
                && LeavesMostRoom(old(Blocks()), Blocks(), memorySize, alignment, size)
                && (old(Blocks()) == {} ==> StartFirst(memorySize, size, ptr.value))
    {
      hide LeavesMostRoom, NoRoom, Room, StartFirst, LeavesMost, OnPath, FreeAt, HasFreeAt, Partition, BlocksOf;
      var pos := tree.FindFree(depth);
      if pos == INVALID_POS {
        NothingFits(alignment, tree.order, units, user, masked, tree.live, memorySize, depth);
        return None;
      }
      FreePosition(tree.order, tree.live, pos);
      RoomAt(alignment, tree.order, units, user, masked, tree.live, memorySize, pos);
      BestPlacement(alignment, tree.order, units, user, masked, tree.live, memorySize, depth, pos.index);
      FirstOfEmpty(alignment, tree.order, units, user, masked, tree.live, memorySize, pos);
      var addr := Occupy(pos);
      ptr := Some(addr);
    }

    /** Marks a wholly free position and returns its address. */
    method Occupy(pos: Pos) returns (addr: nat)
      requires Valid() && ValidPos(tree.order, pos) && WhollyFree(tree.live, pos.index)
      modifies this`user, tree, tree.bits
      ensures Valid()
      ensures pos.depth <= tree.order && Pow2(pos.depth - 1) <= pos.index
      ensures addr == Scale(SizeAt(alignment, tree.order - pos.depth), pos.index - Pow2(pos.depth - 1))
      ensures addr == Scale(alignment, First(tree.order, pos.index)) && user == old(user) + {pos.index}
      ensures Blocks() == old(Blocks()) + {Block(addr, SizeAt(alignment, tree.order - pos.depth))}
      ensures Allocated() == old(Allocated()) + SizeAt(alignment, tree.order - pos.depth)
    {
      addr := AddressForPosition(pos);
      OccupyEffect(alignment, tree.order, units, user, masked, tree.live, pos);
      tree.Mark(pos);
      user := user + {pos.index};
    }

    /** position_for_address: climbs from the leaf at `addr` to the first node with a nonzero status. */
    method PositionForAddress(addr: nat) returns (pos: Pos)
      requires Valid() && addr < memorySize
      ensures pos == if Target(alignment, tree.order, tree.st, addr) == 0 then INVALID_POS
                     else Pos(Target(alignment, tree.order, tree.st, addr),
                              Depth(Target(alignment, tree.order, tree.st, addr)))
    {
      if addr % alignment != 0 {
        return INVALID_POS;
      }
      AddressLeaf(memorySize, alignment, units, tree.order, addr);
      pos := Pos(Pow2(tree.order - 1) + addr / alignment, tree.order);
      var status := tree.ReadStatus(pos);
      while status == 0
        invariant ValidPos(tree.order, pos) && status == tree.st[pos.index]
        invariant Climb(tree.st, pos.index) == Climb(tree.st, LeafOf(alignment, tree.order, addr))
        decreases pos.index
      {
        pos := Parent(pos);
        if pos.index == 0 {
          return INVALID_POS;
        }
        status := tree.ReadStatus(pos);
      }
      var start := AddressForPosition(pos);
      if start != addr {
        return INVALID_POS;
      }
    }

    /**
     * buddy_free: removes exactly the block that starts at `ptr`. Any other pointer, inside the arena
     * or not, changes nothing.
     */
    method Free(ptr: Option<int>)
      requires Valid()
      modifies this`user, tree, tree.bits
      ensures Valid()
      ensures Blocks() == Without(old(Blocks()), ptr)
      ensures forall b | b in old(Blocks()) && Some(b.offset as int) == ptr :: Allocated() == old(Allocated()) - b.size
    {
      if ptr.None? {
        return;
      }
      if ptr.value < 0 || ptr.value >= memorySize {
        OutsideBlocks(alignment, tree.order, units, user, memorySize, ptr.value);
        return;
      }
      FreeEffect(alignment, tree.order, units, user, masked, tree.live, tree.st, memorySize, ptr.value);
      var pos := PositionForAddress(ptr.value);
      if pos == INVALID_POS {
        return;
      }
      var released := tree.Release(pos);
      user := user - {pos.index};
    }

    /** buddy_tree_walk: the next position in preorder, leaving out what lies below when going up. */
    method Walk(state: WalkState) returns (next: WalkState)
      requires 0 < tree.order && ValidPos(tree.order, state.pos) && !state.done
      ensures !next.goingUp
      ensures !state.goingUp && 2 * state.pos.index < Pow2(tree.order) ==>
                next == WalkState(LeftChild(state.pos), false, false) && ValidPos(tree.order, next.pos)
      ensures state.goingUp || 2 * state.pos.index >= Pow2(tree.order) ==>
                && next.done == (NextUp(state.pos.index) == 0)
                && (!next.done ==> next.pos.index == NextUp(state.pos.index) && ValidPos(tree.order, next.pos))
    {
      var pos, goingUp, done := state.pos, state.goingUp, false;
      if !goingUp {
        if LeftChild(pos).index < Pow2(tree.order) {
          DepthInTree(tree.order, pos.index);
          return WalkState(LeftChild(pos), false, false);
        }
        goingUp := true;
      }
      while goingUp
        invariant ValidPos(tree.order, pos)
        invariant goingUp ==> !done && NextUp(pos.index) == NextUp(state.pos.index)
        invariant !goingUp ==> done == (NextUp(state.pos.index) == 0)
        invariant !goingUp && !done ==> pos.index == NextUp(state.pos.index)
        decreases goingUp, pos.index
      {
        if pos.index == 1 {
          done, goingUp := true, false;
        } else if pos.index % 2 == 1 {
          pos := Parent(pos);
        } else {
          SiblingInRow(tree.order, pos.index);
          pos, goingUp := Pos(pos.index + 1, pos.depth), false;
        }
      }
      next := WalkState(pos, false, done);
    }

    /** buddy_arena_free_size: what is free and what is handed out make up the arena. */
    method ArenaFreeSize() returns (result: nat)
      requires Valid()
      ensures result + Allocated() == memorySize
    {
      hide Partition, Geometry, FreeUnits, FreeFrom, Scale, Pow2, Depth, Encodes, LocalOk, Antichain, WalkLeft;
      RootWidth(tree.order);
      WalkStart(tree.order, tree.st, alignment);
      result := 0;
      ghost var counted: nat := 0;
      var state := WalkState(ROOT, false, false);
      while !state.done
        invariant !state.goingUp && (!state.done ==> ValidPos(tree.order, state.pos))
        invariant result == Scale(alignment, counted)
        invariant counted + (if state.done then 0 else FreeFrom(tree.order, tree.st, state.pos.index))
                  == FreeUnits(tree.order, tree.st, 1)
        decreases !state.done, if state.done then 0 else WalkLeft(tree.order, state.pos.index),
                  if state.done then 0 else Pow2(tree.order) - state.pos.index
      {
        var pos := state.pos;
        ghost var st := tree.st;
        var status := tree.ReadStatus(pos);
        DepthInTree(tree.order, pos.index);
        if status == tree.order - pos.depth + 1 {
          state := state.(goingUp := true);
        } else if status == 0 {
          state := state.(goingUp := true);
          var size := SizeForDepth(pos.depth);
          result := result + size;
          SizeAtScales(alignment, tree.order - pos.depth);
          ScaleSum(alignment, counted, Span(tree.order, pos.index));
          counted := counted + Span(tree.order, pos.index);
        }
        if state.goingUp {
          WalkPast(tree.order, st, pos.index);
        } else {
          WalkInto(tree.order, tree.live, st, pos.index);
        }
        state := Walk(state);
      }
      FreeRest(memorySize, alignment, tree.order, units, user, masked, tree.live, tree.st);
    }

    /** What every reachable state guarantees about the blocks handed out. */
    lemma Sound()
      requires Valid()
      ensures WellPlaced(memorySize, Blocks())
      ensures Allocated() == TotalSize(Blocks())
    {
      BlocksWellPlaced(memorySize, alignment, tree.order, units, user, masked, tree.live);
    }

    /** Bytes handed out. */
    ghost function Allocated(): nat
      reads this
    {
      BytesUsed(alignment, tree.order, user)
    }
  }

  /** The loop condition of depth_for_size. */
  method CanHalve(effective: nat, wanted: nat) returns (r: bool)
    requires 0 < wanted
    ensures r <==> 2 * wanted <= effective
  {
    TwiceFits(effective, wanted);
    r := ShiftRight(effective / wanted, 1) != 0;
  }

  /** Alignment in memory of the allocator's own tables and of a machine word. */
  const WORD: nat := 8

  /**
   * buddy_init_alignment: `at` is the address of the tables and `main` that of the arena, 0 for null.
   * Rejects missing, equal and misaligned addresses, an alignment that is not a power of two and an
   * arena below one block.
   */
  method Init(at: nat, main: nat, memorySize: nat, alignment: nat) returns (r: Option<Buddy>)
    requires 2 * memorySize <= SIZE_MAX && 2 * alignment <= SIZE_MAX
    ensures r.None? <==>
              || at == 0 || main == 0 || at == main || at % WORD != 0 || main % WORD != 0
              || (forall k: nat :: alignment != Pow2(k)) || memorySize < alignment
    ensures r.Some? ==>
              && fresh(r.value) && r.value.Valid() && r.value.Blocks() == {} && r.value.alignment == alignment
              && r.value.memorySize == memorySize - memorySize % alignment
  {
    if at == 0 || main == 0 || at == main {
      return None;
    }
    var ceiling := CeilingPowerOfTwo(alignment);
    if ceiling != alignment {
      if exists k: nat :: alignment == Pow2(k) {
        var k: nat :| alignment == Pow2(k);
        if k > 0 { Pow2Double(k - 1); }
        CeilLogUnique(alignment, k);
      }
      return None;
    }
    if at % WORD != 0 || main % WORD != 0 {
      return None;
    }
    if memorySize < alignment {
      return None;
    }
    var trimmed := memorySize - memorySize % alignment;
    TrimmedArena(memorySize, alignment);
    var buddy := new Buddy(trimmed / alignment, alignment);
    r := Some(buddy);
  }

  lemma TrimmedArena(memorySize: nat, alignment: nat)
    requires 0 < alignment <= memorySize
    ensures var trimmed := memorySize - memorySize % alignment;
            0 < trimmed / alignment && Scale(alignment, trimmed / alignment) == trimmed
  {
    var q := memorySize / alignment;
    var trimmed := memorySize - memorySize % alignment;
    assert memorySize == alignment * q + memorySize % alignment;
    DivModUnique(trimmed, alignment, q, 0);
    ScaleOfQuotient(alignment, trimmed);
  }
}
