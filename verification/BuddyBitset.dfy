/** The byte-backed bitset of the buddy allocator: range set, clear and count over packed bytes. */
module BuddyBitset {

  const INDEX_MASK: seq<bv8> := [1, 2, 4, 8, 16, 32, 64, 128]

  const CHAR_MASK: seq<seq<bv8>> := [
    [1, 3, 7, 15, 31, 63, 127, 255],
    [0, 2, 6, 14, 30, 62, 126, 254],
    [0, 0, 4, 12, 28, 60, 124, 252],
    [0, 0, 0,  8, 24, 56, 120, 248],
    [0, 0, 0,  0, 16, 48, 112, 240],
    [0, 0, 0,  0,  0, 32,  96, 224],
    [0, 0, 0,  0,  0,  0,  64, 192],
    [0, 0, 0,  0,  0,  0,   0, 128]
  ]

  /** Bit `k` of one byte. */
  predicate Bit(b: bv8, k: nat)
    requires k < 8
  {
    b & INDEX_MASK[k] != 0
  }

  /** Bit `i` of a packed byte sequence. */
  predicate BitAt(s: seq<bv8>, i: nat)
    requires i < 8 * |s|
  {
    Bit(s[i / 8], i % 8)
  }

  lemma MaskBit(f: nat, t: nat, k: nat)
    requires f < 8 && t < 8 && k < 8
    ensures |CHAR_MASK| == 8 && |CHAR_MASK[f]| == 8
    ensures Bit(CHAR_MASK[f][t], k) <==> f <= k <= t
  {
    var row := CHAR_MASK[f];
    if
    case f == 0 => assert row == CHAR_MASK[0];
    case f == 1 => assert row == CHAR_MASK[1];
    case f == 2 => assert row == CHAR_MASK[2];
    case f == 3 => assert row == CHAR_MASK[3];
    case f == 4 => assert row == CHAR_MASK[4];
    case f == 5 => assert row == CHAR_MASK[5];
    case f == 6 => assert row == CHAR_MASK[6];
    case f == 7 => assert row == CHAR_MASK[7];
  }

  lemma OrBit(b: bv8, m: bv8, k: nat)
    requires k < 8
    ensures Bit(b | m, k) <==> Bit(b, k) || Bit(m, k)
  {
  }

  lemma AndNotBit(b: bv8, m: bv8, k: nat)
    requires k < 8
    ensures Bit(b & !m, k) <==> Bit(b, k) && !Bit(m, k)
  {
  }

  lemma AndBit(b: bv8, m: bv8, k: nat)
    requires k < 8
    ensures Bit(b & m, k) <==> Bit(b, k) && Bit(m, k)
  {
  }

  /** The bits of `s` after `f` decided every position in `[from, to]`: the rest is unchanged. */
  ghost predicate RangeBecame(s: seq<bv8>, s': seq<bv8>, from: nat, to: nat, value: bool)
    requires from <= to < 8 * |s|
  {
    && |s'| == |s|
    && forall i: nat | i < 8 * |s| :: BitAt(s', i) == if from <= i <= to then value else BitAt(s, i)
  }

  /** A run of bits split into its first and last byte (struct bitset_range). */
  datatype Range = Range(fromBucket: nat, toBucket: nat, fromIndex: nat, toIndex: nat)

  function RangeOf(from: nat, to: nat): Range {
    Range(from / 8, to / 8, from % 8, to % 8)
  }

  /** `bitset[j] |= bitset_char_mask[f][t]` */
  method SetInByte(a: array<bv8>, j: nat, f: nat, t: nat)
    requires j < a.Length && f <= t < 8
    modifies a
    ensures forall i | 0 <= i < a.Length && i != j :: a[i] == old(a[i])
    ensures forall k: nat | k < 8 :: Bit(a[j], k) == (f <= k <= t || Bit(old(a[j]), k))
  {
    MaskBit(f, t, 0);
    var mask := CHAR_MASK[f][t];
    ghost var before := a[j];
    a[j] := a[j] | mask;
    forall k: nat | k < 8
      ensures Bit(a[j], k) == (f <= k <= t || Bit(before, k))
    {
      MaskBit(f, t, k);
      OrBit(before, mask, k);
    }
  }

  /** `bitset[j] &= ~bitset_char_mask[f][t]` */
  method ClearInByte(a: array<bv8>, j: nat, f: nat, t: nat)
    requires j < a.Length && f <= t < 8
    modifies a
    ensures forall i | 0 <= i < a.Length && i != j :: a[i] == old(a[i])
    ensures forall k: nat | k < 8 :: Bit(a[j], k) == (!(f <= k <= t) && Bit(old(a[j]), k))
  {
    MaskBit(f, t, 0);
    var mask := CHAR_MASK[f][t];
    ghost var before := a[j];
    a[j] := a[j] & !mask;
    forall k: nat | k < 8
      ensures Bit(a[j], k) == (!(f <= k <= t) && Bit(before, k))
    {
      MaskBit(f, t, k);
      AndNotBit(before, mask, k);
    }
  }

  /** What the byte loops leave: whole bytes between the two ends, the ends in part, the rest as it was. */
  ghost predicate Filled(s: seq<bv8>, s': seq<bv8>, r: Range, bucket: nat, value: bool)
    requires |s'| == |s| && r.fromBucket < bucket <= r.toBucket < |s|
  {
    && (forall j, k: nat | r.fromBucket < j < bucket && k < 8 :: Bit(s'[j], k) == value)
    && (forall j | 0 <= j < |s| && !(r.fromBucket <= j < bucket) && j != r.toBucket :: s'[j] == s[j])
    && (forall k: nat | k < 8 ::
          Bit(s'[r.fromBucket], k) == if r.fromIndex <= k then value else Bit(s[r.fromBucket], k))
    && (forall k: nat | k < 8 :: Bit(s'[r.toBucket], k) == if k <= r.toIndex then value else Bit(s[r.toBucket], k))
  }

  lemma FilledAll(s: seq<bv8>, s': seq<bv8>, from: nat, to: nat, value: bool)
    requires |s'| == |s| && from <= to < 8 * |s| && from / 8 < to / 8
    requires Filled(s, s', RangeOf(from, to), to / 8, value)
    ensures RangeBecame(s, s', from, to, value)
  {
    hide Bit;
    var r := RangeOf(from, to);
    forall i: nat | i < 8 * |s| ensures BitAt(s', i) == if from <= i <= to then value else BitAt(s, i) {
      var j, k := i / 8, i % 8;
      assert Bit(s'[j], k) ==
             if j == r.fromBucket then (if r.fromIndex <= k then value else Bit(s[j], k))
             else if j == r.toBucket then (if k <= r.toIndex then value else Bit(s[j], k))
             else if r.fromBucket < j < r.toBucket then value else Bit(s[j], k);
    }
  }

  lemma FilledMore(s: seq<bv8>, s': seq<bv8>, r: Range, bucket: nat, value: bool, byte: bv8)
    requires |s'| == |s| && r.fromBucket < bucket < r.toBucket < |s| && Filled(s, s', r, bucket, value)
    requires forall k: nat | k < 8 :: Bit(byte, k) == value
    ensures Filled(s, s'[bucket := byte], r, bucket + 1, value)
  {
    hide Bit;
  }

  lemma WholeBytes()
    ensures forall k: nat | k < 8 :: Bit(255, k) && !Bit(0, k)
  {
  }

  method SetRange(a: array<bv8>, from: nat, to: nat)
    requires from <= to < 8 * a.Length
    modifies a
    ensures RangeBecame(old(a[..]), a[..], from, to, true)
  {
    hide Bit;
    WholeBytes();
    ghost var before := a[..];
    var r := RangeOf(from, to);
    if r.fromBucket == r.toBucket {
      SetInByte(a, r.fromBucket, r.fromIndex, r.toIndex);
    } else {
      SetInByte(a, r.fromBucket, r.fromIndex, 7);
      SetInByte(a, r.toBucket, 0, r.toIndex);
      var bucket := r.fromBucket + 1;
      while bucket != r.toBucket
        invariant r.fromBucket < bucket <= r.toBucket && Filled(before, a[..], r, bucket, true)
      {
        FilledMore(before, a[..], r, bucket, true, 255);
        ghost var s := a[..];
        a[bucket] := 255;
        assert a[..] == s[bucket := 255];
        bucket := bucket + 1;
      }
      FilledAll(before, a[..], from, to, true);
    }
  }

  method ClearRange(a: array<bv8>, from: nat, to: nat)
    requires from <= to < 8 * a.Length
    modifies a
    ensures RangeBecame(old(a[..]), a[..], from, to, false)
  {
    hide Bit;
    WholeBytes();
    ghost var before := a[..];
    var r := RangeOf(from, to);
    if r.fromBucket == r.toBucket {
      ClearInByte(a, r.fromBucket, r.fromIndex, r.toIndex);
    } else {
      ClearInByte(a, r.fromBucket, r.fromIndex, 7);
      ClearInByte(a, r.toBucket, 0, r.toIndex);
      var bucket := r.fromBucket + 1;
      while bucket != r.toBucket
        invariant r.fromBucket < bucket <= r.toBucket && Filled(before, a[..], r, bucket, false)
      {
        FilledMore(before, a[..], r, bucket, false, 0);
        ghost var s := a[..];
        a[bucket] := 0;
        assert a[..] == s[bucket := 0];
        bucket := bucket + 1;
      }
      FilledAll(before, a[..], from, to, false);
    }
  }

  /** Number of set bits in `[lo, hi)`. */
  function CountOnes(s: seq<bv8>, lo: nat, hi: nat): nat
    requires lo <= hi <= 8 * |s|
  {
    if lo == hi then 0 else CountOnes(s, lo, hi - 1) + if BitAt(s, hi - 1) then 1 else 0
  }

  /** Set bits of `b` at positions `f <= k < n`. */
  function CountByte(b: bv8, f: nat, n: nat): nat
    requires n <= 8
  {
    if n == 0 then 0 else CountByte(b, f, n - 1) + if f <= n - 1 && Bit(b, n - 1) then 1 else 0
  }

  /** popcount_byte: the number of set bits of one byte. */
  function PopcountByte(b: bv8): nat {
    CountByte(b, 0, 8)
  }

  lemma {:induction false} CountByteWithin(s: seq<bv8>, j: nat, f: nat, n: nat)
    requires j < |s| && f <= n <= 8
    ensures CountByte(s[j], f, n) == CountOnes(s, 8 * j + f, 8 * j + n)
  {
    hide Bit, BitAt;
    if n == f {
      CountByteEmpty(s[j], f, n);
    } else {
      CountByteWithin(s, j, f, n - 1);
      BitOfByte(s, j, n - 1);
    }
  }

  lemma BitOfByte(s: seq<bv8>, j: nat, k: nat)
    requires j < |s| && k < 8
    ensures BitAt(s, 8 * j + k) <==> Bit(s[j], k)
  {
    var i := 8 * j + k;
    assert i / 8 == j && i % 8 == k;
  }

  lemma {:induction false} CountByteEmpty(b: bv8, f: nat, n: nat)
    requires n <= f && n <= 8
    ensures CountByte(b, f, n) == 0
  {
    if n > 0 { CountByteEmpty(b, f, n - 1); }
  }

  lemma {:induction false} CountByteMasked(b: bv8, m: bv8, f: nat, t: nat, n: nat)
    requires f <= t < 8 && n <= 8
    requires forall k: nat | k < 8 :: Bit(m, k) <==> f <= k <= t
    ensures CountByte(b & m, 0, n) == CountByte(b, f, if n <= t + 1 then n else t + 1)
  {
    if n > 0 {
      CountByteMasked(b, m, f, t, n - 1);
      AndBit(b, m, n - 1);
    }
  }

  /** `popcount_byte(bitset[j] & bitset_char_mask[f][t])` */
  method CountInByte(a: array<bv8>, j: nat, f: nat, t: nat) returns (n: nat)
    requires j < a.Length && f <= t < 8
    ensures n == CountOnes(a[..], 8 * j + f, 8 * j + t + 1)
  {
    MaskBit(f, t, 0);
    var mask := CHAR_MASK[f][t];
    n := PopcountByte(a[j] & mask);
    forall k: nat | k < 8 ensures Bit(mask, k) <==> f <= k <= t { MaskBit(f, t, k); }
    CountByteMasked(a[j], mask, f, t, 8);
    CountByteWithin(a[..], j, f, t + 1);
  }

  method CountWholeByte(a: array<bv8>, j: nat) returns (n: nat)
    requires j < a.Length
    ensures n == CountOnes(a[..], 8 * j, 8 * j + 8)
  {
    n := PopcountByte(a[j]);
    CountByteWithin(a[..], j, 0, 8);
  }

  method CountWholeBytes(a: array<bv8>, lo: nat, hi: nat) returns (n: nat)
    requires lo <= hi <= a.Length
    ensures n == CountOnes(a[..], 8 * lo, 8 * hi)
  {
    assert CountOnes(a[..], 8 * lo, 8 * lo) == 0;
    hide CountOnes;
    var bucket := lo;
    n := 0;
    while bucket != hi
      invariant lo <= bucket <= hi
      invariant n == CountOnes(a[..], 8 * lo, 8 * bucket)
    {
      var whole := CountWholeByte(a, bucket);
      CountOnesSplit(a[..], 8 * lo, 8 * bucket, 8 * bucket + 8);
      n := n + whole;
      bucket := bucket + 1;
    }
  }

  lemma {:induction false} CountOnesSplit(s: seq<bv8>, lo: nat, mid: nat, hi: nat)
    requires lo <= mid <= hi <= 8 * |s|
    ensures CountOnes(s, lo, hi) == CountOnes(s, lo, mid) + CountOnes(s, mid, hi)
  {
    if mid < hi { CountOnesSplit(s, lo, mid, hi - 1); }
  }

  lemma CountOnesInThree(s: seq<bv8>, lo: nat, m1: nat, m2: nat, hi: nat, first: nat, middle: nat, last: nat)
    requires lo <= m1 <= m2 <= hi <= 8 * |s|
    requires first == CountOnes(s, lo, m1) && middle == CountOnes(s, m1, m2) && last == CountOnes(s, m2, hi)
    ensures CountOnes(s, lo, hi) == first + middle + last
  {
    CountOnesSplit(s, lo, m1, m2);
    CountOnesSplit(s, lo, m2, hi);
  }

  method CountRange(a: array<bv8>, from: nat, to: nat) returns (result: nat)
    requires from <= to < 8 * a.Length
    ensures result == CountOnes(a[..], from, to + 1)
  {
    result := CountBuckets(a, RangeOf(from, to));
  }

  /** The first bucket, the last one and those between, or one bucket only. */
  method CountBuckets(a: array<bv8>, r: Range) returns (result: nat)
    requires r.fromIndex < 8 && r.toIndex < 8 && r.fromBucket <= r.toBucket < a.Length
    requires r.fromBucket == r.toBucket ==> r.fromIndex <= r.toIndex
    ensures result == CountOnes(a[..], 8 * r.fromBucket + r.fromIndex, 8 * r.toBucket + r.toIndex + 1)
  {
    if r.fromBucket == r.toBucket {
      result := CountInByte(a, r.fromBucket, r.fromIndex, r.toIndex);
    } else {
      result := CountAcross(a, r);
    }
  }

  method CountAcross(a: array<bv8>, r: Range) returns (result: nat)
    requires r.fromIndex < 8 && r.toIndex < 8 && r.fromBucket < r.toBucket < a.Length
    ensures result == CountOnes(a[..], 8 * r.fromBucket + r.fromIndex, 8 * r.toBucket + r.toIndex + 1)
  {
    hide CountOnes;
    ghost var lo, m1, m2, hi := 8 * r.fromBucket + r.fromIndex, 8 * r.fromBucket + 8, 8 * r.toBucket,
      8 * r.toBucket + r.toIndex + 1;
    assert lo <= m1 <= m2 <= hi <= 8 * a.Length;
    var first := CountInByte(a, r.fromBucket, r.fromIndex, 7);
    var last := CountInByte(a, r.toBucket, 0, r.toIndex);
    var middle := CountWholeBytes(a, r.fromBucket + 1, r.toBucket);
    CountOnesInThree(a[..], lo, m1, m2, hi, first, middle, last);
    result := first + last + middle;
  }

  /** A field of `width` bits at `loc` holds `value` in unary: that many ones, then zeros. */
  ghost predicate Unary(s: seq<bv8>, loc: nat, width: nat, value: nat)
    requires loc + width <= 8 * |s|
  {
    && value <= width
    && forall i: nat | loc <= i < loc + width :: BitAt(s, i) <==> i < loc + value
  }

  lemma {:induction false} UnaryCount(s: seq<bv8>, loc: nat, width: nat, value: nat, n: nat)
    requires loc + width <= 8 * |s| && n <= width
    requires Unary(s, loc, width, value)
    ensures CountOnes(s, loc, loc + n) == if n <= value then n else value
  {
    if n > 0 {
      UnaryCount(s, loc, width, value, n - 1);
      assert BitAt(s, loc + n - 1) <==> loc + n - 1 < loc + value;
    }
  }

  method Test(a: array<bv8>, i: nat) returns (r: bool)
    requires i < 8 * a.Length
    ensures r == BitAt(a[..], i)
  {
    r := a[i / 8] & INDEX_MASK[i % 8] != 0;
  }

  /** write_to_internal_position: stores `value` in unary and touches no bit outside the field. */
  method WriteField(a: array<bv8>, loc: nat, width: nat, value: nat)
    requires 0 < width && value <= width && loc + width <= 8 * a.Length
    modifies a
    ensures Unary(a[..], loc, width, value)
    ensures forall i: nat | i < 8 * a.Length && !(loc <= i < loc + width) :: BitAt(a[..], i) == BitAt(old(a[..]), i)
  {
    ClearRange(a, loc, loc + width - 1);
    if value != 0 {
      SetRange(a, loc, loc + value - 1);
    }
  }

  /** read_from_internal_position: reads back the unary value. */
  method ReadField(a: array<bv8>, loc: nat, width: nat, ghost value: nat) returns (r: nat)
    requires 0 < width && loc + width <= 8 * a.Length
    requires Unary(a[..], loc, width, value)
    ensures r == value
  {
    var first := Test(a, loc);
    if !first { return 0; }
    r := CountRange(a, loc, loc + width - 1);
    UnaryCount(a[..], loc, width, value, width);
  }

  /** compare_with_internal_position: one bit test decides whether the stored value is at least `bound`. */
  method FieldAtLeast(a: array<bv8>, loc: nat, width: nat, bound: nat, ghost value: nat) returns (r: bool)
    requires 0 < bound <= width && loc + width <= 8 * a.Length
    requires Unary(a[..], loc, width, value)
    ensures r <==> value >= bound
  {
    r := Test(a, loc + bound - 1);
  }
}
