/** What the busy levels of the buddy tree mean, in terms of the set of occupied nodes. */
module BuddyStatus {
  import opened BuddyLayout

  /** Status of a node that is not itself occupied, from the statuses of its children. */
  function Join(left: nat, right: nat): nat {
    if left == 0 && right == 0 then 0 else 1 + if left <= right then left else right
  }

  /** No node at `i` or above it is occupied. */
  ghost predicate Clear(live: set<nat>, i: nat) {
    i == 0 || (i !in live && Clear(live, i / 2))
  }

  /** Occupied nodes are in the tree and none lies above another. */
  ghost predicate Antichain(order: nat, live: set<nat>) {
    forall i | i in live :: 0 < i < Pow2(order) && Clear(live, i / 2)
  }

  ghost predicate LocalOk(order: nat, live: set<nat>, st: seq<nat>, i: nat)
    requires |st| == Pow2(order) && 0 < i < |st|
  {
    st[i] == if i in live then Width(order, i)
             else if 2 * i + 1 >= |st| then 0
             else Join(st[2 * i], st[2 * i + 1])
  }

  /** The stored statuses are the ones the occupied set calls for. */
  ghost predicate Consistent(order: nat, live: set<nat>, st: seq<nat>) {
    && |st| == Pow2(order)
    && Antichain(order, live)
    && forall i | 0 < i < |st| :: LocalOk(order, live, st, i)
  }

  /** Node `j` is `i` or one of its descendants. */
  ghost predicate InSubtree(i: nat, j: nat)
    decreases j
  {
    0 < i <= j && (i == j || InSubtree(i, j / 2))
  }

  ghost predicate NoneBelow(live: set<nat>, i: nat) {
    forall j | j in live :: !InSubtree(i, j)
  }

  /** The memory of node `i` is entirely unused: nothing occupied at, above or below it. */
  ghost predicate WhollyFree(live: set<nat>, i: nat) {
    Clear(live, i) && NoneBelow(live, i)
  }

  lemma {:induction false} SubtreeSplit(i: nat, j: nat)
    requires 0 < i
    ensures InSubtree(i, j) <==> i == j || InSubtree(2 * i, j) || InSubtree(2 * i + 1, j)
    decreases j
  {
    if i < j { SubtreeSplit(i, j / 2); }
  }

  lemma ChildDepth(order: nat, i: nat)
    requires 0 < i && 2 * i + 1 < Pow2(order)
    ensures Depth(2 * i) == Depth(2 * i + 1) == Depth(i) + 1 <= order
    ensures Width(order, 2 * i) == Width(order, 2 * i + 1) == Width(order, i) - 1
  {
    DepthInTree(order, 2 * i);
  }

  lemma LeafWidth(order: nat, i: nat)
    requires 0 < i < Pow2(order)
    ensures 2 * i + 1 >= Pow2(order) <==> Width(order, i) == 1
  {
    DepthInTree(order, i);
    DepthBounds(i);
    Pow2Double(order - 1);
    if Width(order, i) > 1 {
      Pow2Monotone(Depth(i), order - 1);
    }
  }

  lemma {:induction false} StatusBound(order: nat, live: set<nat>, st: seq<nat>, i: nat)
    requires Consistent(order, live, st) && 0 < i < |st|
    ensures st[i] <= Width(order, i)
    decreases |st| - i
  {
    assert LocalOk(order, live, st, i);
    if 2 * i + 1 < |st| {
      ChildDepth(order, i);
      StatusBound(order, live, st, 2 * i);
      StatusBound(order, live, st, 2 * i + 1);
    }
  }

  /** Below an occupied node every status is zero. */
  lemma {:induction false} CoveredIsZero(order: nat, live: set<nat>, st: seq<nat>, i: nat)
    requires Consistent(order, live, st) && 0 < i < |st|
    requires !Clear(live, i / 2)
    ensures st[i] == 0
    decreases |st| - i
  {
    assert LocalOk(order, live, st, i);
    if 2 * i + 1 < |st| {
      assert (2 * i) / 2 == i && (2 * i + 1) / 2 == i;
      CoveredIsZero(order, live, st, 2 * i);
      CoveredIsZero(order, live, st, 2 * i + 1);
    }
  }

  lemma NoneBelowSplit(live: set<nat>, i: nat)
    requires 0 < i
    ensures NoneBelow(live, i) <==> i !in live && NoneBelow(live, 2 * i) && NoneBelow(live, 2 * i + 1)
  {
    forall j | j in live
      ensures InSubtree(i, j) <==> i == j || InSubtree(2 * i, j) || InSubtree(2 * i + 1, j)
    {
      SubtreeSplit(i, j);
    }
    assert InSubtree(i, i);
  }

  lemma {:induction false} ZeroIffNoneBelow(order: nat, live: set<nat>, st: seq<nat>, i: nat)
    requires Consistent(order, live, st) && 0 < i < |st|
    ensures st[i] == 0 <==> NoneBelow(live, i)
    decreases |st| - i
  {
    assert LocalOk(order, live, st, i);
    NoneBelowSplit(live, i);
    LeafWidth(order, i);
    if 2 * i + 1 < |st| {
      ZeroIffNoneBelow(order, live, st, 2 * i);
      ZeroIffNoneBelow(order, live, st, 2 * i + 1);
    } else {
      LeafHasNoneBelow(order, live, i);
    }
  }

  lemma LeafHasNoneBelow(order: nat, live: set<nat>, i: nat)
    requires Antichain(order, live) && 0 < i && 2 * i + 1 >= Pow2(order) > 1
    ensures NoneBelow(live, 2 * i) && NoneBelow(live, 2 * i + 1)
  {
    assert Pow2(order) == 2 * Pow2(order - 1);
  }

  /** `j` is a wholly free node `k` levels below `i`. */
  ghost predicate FreeAt(live: set<nat>, i: nat, k: nat, j: nat) {
    InSubtree(i, j) && Depth(j) == Depth(i) + k && WhollyFree(live, j)
  }

  ghost predicate HasFreeAt(live: set<nat>, i: nat, k: nat) {
    exists j :: FreeAt(live, i, k, j)
  }

  lemma HasFreeSplit(live: set<nat>, i: nat, k: nat)
    requires 0 < i && Depth(2 * i) == Depth(2 * i + 1) == Depth(i) + 1
    ensures HasFreeAt(live, i, k + 1) <==> HasFreeAt(live, 2 * i, k) || HasFreeAt(live, 2 * i + 1, k)
  {
    if HasFreeAt(live, i, k + 1) {
      var j :| FreeAt(live, i, k + 1, j);
      SubtreeSplit(i, j);
      assert FreeAt(live, 2 * i, k, j) || FreeAt(live, 2 * i + 1, k, j);
    }
    if HasFreeAt(live, 2 * i, k) {
      var j :| FreeAt(live, 2 * i, k, j);
      SubtreeSplit(i, j);
      assert FreeAt(live, i, k + 1, j);
    }
    if HasFreeAt(live, 2 * i + 1, k) {
      var j :| FreeAt(live, 2 * i + 1, k, j);
      SubtreeSplit(i, j);
      assert FreeAt(live, i, k + 1, j);
    }
  }

  lemma SubtreeDepth(i: nat, j: nat)
    requires InSubtree(i, j)
    ensures Depth(i) <= Depth(j)
    ensures Depth(i) == Depth(j) ==> i == j
    decreases j
  {
    if i < j { SubtreeDepth(i, j / 2); }
  }

  /**
   * A status is the number of levels down to the shallowest wholly free node, or its maximum when
   * there is none: `k` levels down there is one exactly when the status is at most `k`.
   */
  lemma {:induction false} StatusMeaning(order: nat, live: set<nat>, st: seq<nat>, i: nat, k: nat)
    requires Consistent(order, live, st) && 0 < i < |st| && k < Width(order, i)
    requires Clear(live, i / 2)
    ensures st[i] <= k <==> HasFreeAt(live, i, k)
    decreases |st| - i
  {
    assert LocalOk(order, live, st, i);
    LeafWidth(order, i);
    if i in live {
      forall j | InSubtree(i, j) ensures !Clear(live, j) { NotClearBelow(live, i, j); }
    } else if k == 0 {
      ZeroIffNoneBelow(order, live, st, i);
      if st[i] == 0 {
        assert FreeAt(live, i, 0, i);
      }
      forall j | FreeAt(live, i, 0, j) ensures j == i { SubtreeDepth(i, j); }
    } else {
      var l, r := 2 * i, 2 * i + 1;
      ChildDepth(order, i);
      assert l / 2 == i && r / 2 == i;
      StatusMeaning(order, live, st, l, k - 1);
      StatusMeaning(order, live, st, r, k - 1);
      HasFreeSplit(live, i, k - 1);
    }
  }

  lemma {:induction false} NotClearBelow(live: set<nat>, i: nat, j: nat)
    requires InSubtree(i, j) && !Clear(live, i)
    ensures !Clear(live, j)
    decreases j
  {
    if i < j { NotClearBelow(live, i, j / 2); }
  }

  /** At its maximum a status says that nothing below the node can be handed out at any size. */
  lemma FullMeaning(order: nat, live: set<nat>, st: seq<nat>, i: nat)
    requires Consistent(order, live, st) && 0 < i < |st| && Clear(live, i / 2)
    ensures st[i] == Width(order, i) <==>
            forall k: nat | k < Width(order, i) :: !HasFreeAt(live, i, k)
  {
    StatusBound(order, live, st, i);
    StatusMeaning(order, live, st, i, Width(order, i) - 1);
    forall k: nat | k < Width(order, i)
      ensures st[i] <= k <==> HasFreeAt(live, i, k)
    {
      StatusMeaning(order, live, st, i, k);
    }
  }

  /** The child to look into for a node `k` levels further down: the busier one that fits, left on ties. */
  ghost function Preferred(st: seq<nat>, i: nat, k: nat): nat
    requires 0 < i && 2 * i + 1 < |st|
  {
    var l, r := 2 * i, 2 * i + 1;
    if st[l] > k then r else if st[r] > k || st[l] >= st[r] then l else r
  }

  /** The search of buddy_tree_find_free, on the statuses. */
  ghost function Descend(order: nat, st: seq<nat>, i: nat, k: nat): nat
    requires |st| == Pow2(order) && 0 < i < |st| && k < Width(order, i)
    decreases k
  {
    if k == 0 then i
    else
      ChildrenInTree(order, i);
      Descend(order, st, Preferred(st, i, k - 1), k - 1)
  }

  lemma DescendStep(order: nat, st: seq<nat>, i: nat, k: nat)
    requires |st| == Pow2(order) && 0 < i < |st| && k + 1 < Width(order, i)
    ensures 2 * i + 1 < |st| && Depth(2 * i) == Depth(2 * i + 1) == Depth(i) + 1
    ensures k < Width(order, Preferred(st, i, k))
    ensures Descend(order, st, i, k + 1) == Descend(order, st, Preferred(st, i, k), k)
  {
    ChildrenInTree(order, i);
    ChildDepth(order, i);
  }

  lemma RootWidth(order: nat)
    requires 0 < order
    ensures 1 < Pow2(order) && Depth(1) == 1 && Width(order, 1) == order
  {
  }

  lemma ChildrenInTree(order: nat, i: nat)
    requires 0 < i < Pow2(order) && 1 < Width(order, i)
    ensures 2 * i + 1 < Pow2(order)
    ensures Width(order, 2 * i) == Width(order, 2 * i + 1) == Width(order, i) - 1
  {
    LeafWidth(order, i);
    ChildDepth(order, i);
  }

  /** Whenever the status admits the depth, the search ends on a wholly free node of that depth. */
  lemma {:induction false} DescendFindsFree(order: nat, live: set<nat>, st: seq<nat>, i: nat, k: nat)
    requires Consistent(order, live, st) && 0 < i < |st| && k < Width(order, i)
    requires Clear(live, i / 2) && st[i] <= k
    ensures FreeAt(live, i, k, Descend(order, st, i, k))
    decreases k
  {
    assert LocalOk(order, live, st, i);
    if k == 0 {
      ZeroIffNoneBelow(order, live, st, i);
    } else {
      ChildrenInTree(order, i);
      ChildDepth(order, i);
      var l, r := 2 * i, 2 * i + 1;
      assert l / 2 == i && r / 2 == i;
      var j := Descend(order, st, i, k);
      DescendFindsFree(order, live, st, Preferred(st, i, k - 1), k - 1);
      SubtreeSplit(i, j);
    }
  }

  /** A full status on a node with an unused child belongs to an occupied node. */
  lemma FullAboveZero(order: nat, live: set<nat>, st: seq<nat>, i: nat)
    requires Consistent(order, live, st) && 0 < i && 2 * i + 1 < |st|
    requires st[2 * i] == 0 || st[2 * i + 1] == 0
    requires st[i] == Width(order, i)
    ensures i in live
  {
    assert LocalOk(order, live, st, i);
    LeafWidth(order, i);
  }

  /** All statuses are right except possibly the one of node `at`, above which nothing is occupied. */
  ghost predicate Pending(order: nat, live: set<nat>, st: seq<nat>, at: nat) {
    && |st| == Pow2(order)
    && Antichain(order, live)
    && Clear(live, at)
    && (forall i | 0 < i < |st| :: st[i] <= Width(order, i))
    && forall i | 0 < i < |st| && i != at :: LocalOk(order, live, st, i)
  }

  lemma PendingAboveRoot(order: nat, live: set<nat>, st: seq<nat>)
    requires Pending(order, live, st, 0)
    ensures Consistent(order, live, st)
  {
  }

  /** Recomputing the pending parent moves the pending place one level up, or settles the tree. */
  lemma RepairStep(order: nat, live: set<nat>, st: seq<nat>, i: nat)
    requires 1 < i < Pow2(order) && Pending(order, live, st, i / 2)
    ensures 0 < Sibling(i) < |st| && Depth(i / 2) == Depth(i) - 1
    ensures Join(st[i], st[Sibling(i)]) <= Width(order, i / 2)
    ensures Pending(order, live, st[i / 2 := Join(st[i], st[Sibling(i)])], i / 2 / 2)
    ensures st[i / 2] == Join(st[i], st[Sibling(i)]) ==> Consistent(order, live, st)
  {
    var q := i / 2;
    ParentInTree(order, q, i);
    RepairAt(order, live, st, q, Join(st[i], st[Sibling(i)]));
  }

  lemma ParentInTree(order: nat, q: nat, i: nat)
    requires 0 < q && (i == 2 * q || i == 2 * q + 1) && i < Pow2(order)
    ensures 2 * q + 1 < Pow2(order) && Depth(i) == Depth(q) + 1
    ensures Width(order, 2 * q) == Width(order, 2 * q + 1) == Width(order, q) - 1
  {
    SiblingInRow(order, i);
    ChildDepth(order, q);
  }

  lemma RepairAt(order: nat, live: set<nat>, st: seq<nat>, q: nat, target: nat)
    requires 0 < q && 2 * q + 1 < Pow2(order) && Pending(order, live, st, q)
    requires target == Join(st[2 * q], st[2 * q + 1]) <= Width(order, q)
    ensures Pending(order, live, st[q := target], q / 2)
    ensures st[q] == target ==> Consistent(order, live, st)
  {
    var st' := st[q := target];
    forall n | 0 < n < |st| && n != q / 2 ensures LocalOk(order, live, st', n) {
      assert n == q || LocalOk(order, live, st, n);
    }
    if st[q] == target { assert LocalOk(order, live, st, q); }
  }

  lemma MarkPending(order: nat, live: set<nat>, st: seq<nat>, i: nat)
    requires Consistent(order, live, st) && 0 < i < |st| && WhollyFree(live, i)
    ensures Pending(order, live + {i}, st[i := Width(order, i)], i / 2)
  {
    AntichainAdd(order, live, i);
    forall n | 0 < n < |st|
      ensures st[n] <= Width(order, n)
      ensures n != i / 2 ==> LocalOk(order, live + {i}, st[i := Width(order, i)], n)
    {
      StatusBound(order, live, st, n);
      assert LocalOk(order, live, st, n);
    }
  }

  lemma ReleasePending(order: nat, live: set<nat>, st: seq<nat>, i: nat)
    requires Consistent(order, live, st) && i in live
    ensures Pending(order, live - {i}, st[i := 0], i / 2)
  {
    AntichainRemove(order, live, i);
    if 2 * i + 1 < |st| {
      assert (2 * i) / 2 == i && (2 * i + 1) / 2 == i;
      CoveredIsZero(order, live, st, 2 * i);
      CoveredIsZero(order, live, st, 2 * i + 1);
    }
    forall n | 0 < n < |st|
      ensures st[n] <= Width(order, n)
      ensures n != i / 2 ==> LocalOk(order, live - {i}, st[i := 0], n)
    {
      StatusBound(order, live, st, n);
      assert LocalOk(order, live, st, n);
    }
  }

  lemma {:induction false} ClearAdd(live: set<nat>, i: nat, n: nat)
    requires Clear(live, n) && !InSubtree(i, n)
    ensures Clear(live + {i}, n)
    decreases n
  {
    if n > 0 { ClearAdd(live, i, n / 2); }
  }

  lemma {:induction false} ClearRemove(live: set<nat>, i: nat, n: nat)
    requires Clear(live, n)
    ensures Clear(live - {i}, n)
  {
    if n > 0 { ClearRemove(live, i, n / 2); }
  }

  lemma AntichainAdd(order: nat, live: set<nat>, i: nat)
    requires Antichain(order, live) && 0 < i < Pow2(order) && WhollyFree(live, i)
    ensures Antichain(order, live + {i}) && Clear(live + {i}, i / 2)
  {
    forall n | n in live + {i} ensures 0 < n < Pow2(order) && Clear(live + {i}, n / 2) {
      ClearAdd(live, i, n / 2);
    }
  }

  lemma AntichainRemove(order: nat, live: set<nat>, i: nat)
    requires Antichain(order, live)
    ensures Antichain(order, live - {i})
    ensures i in live ==> Clear(live - {i}, i / 2)
  {
    forall n | n in live ensures Clear(live - {i}, n / 2) { ClearRemove(live, i, n / 2); }
  }
}
