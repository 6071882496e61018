/** The allocator's bit tricks on sizes. */
module BuddyArith {
  import opened BuddyLayout

  const SIZE_MAX: nat := 0xFFFF_FFFF_FFFF_FFFF

  /** Number of binary digits of `v`. */
  function BitLength(v: nat): nat {
    if v == 0 then 0 else 1 + BitLength(v / 2)
  }

  lemma {:induction false} BitLengthBounds(v: nat)
    requires v > 0
    ensures BitLength(v) > 0 && Pow2(BitLength(v) - 1) <= v < Pow2(BitLength(v))
  {
    if v > 1 { BitLengthBounds(v / 2); } else { assert BitLength(0) == 0; }
  }

  /** `v >> c` */
  function ShiftRight(v: nat, c: nat): nat {
    if c == 0 then v else ShiftRight(v / 2, c - 1)
  }

  lemma {:induction false} ShiftBound(v: nat, c: nat, bound: nat)
    requires v < Pow2(c) * (bound + 1)
    ensures ShiftRight(v, c) <= bound
  {
    if c > 0 {
      assert Pow2(c) * (bound + 1) == 2 * (Pow2(c - 1) * (bound + 1));
      ShiftBound(v / 2, c - 1, bound);
    }
  }

  lemma {:induction false} BitLengthShift(v: nat, c: nat)
    requires v >= Pow2(c) - 1
    ensures BitLength(v) == c + BitLength(ShiftRight(v, c))
  {
    if c > 0 {
      BitLengthShift(v / 2, c - 1);
    }
  }

  const ALL_SET: seq<nat> := [4294967295, 65535, 255, 15, 7, 3, 1]
  const COUNT: seq<nat> := [32, 16, 8, 4, 2, 1, 1]
  ghost const BOUND: seq<nat> := [SIZE_MAX, 4294967295, 65535, 255, 15, 6, 3, 1]

  /** What step `i` of the search relies on. */
  lemma Thresholds(i: nat)
    requires i < 7
    ensures Pow2(COUNT[i]) - 1 <= ALL_SET[i] <= BOUND[i + 1] + 1
    ensures BOUND[i] < Pow2(COUNT[i]) * (BOUND[i + 1] + 1)
  {
    ShiftAmounts();
  }

  /** highest_bit_position, by a binary search over the table of thresholds. */
  method HighestBitPosition(input: nat) returns (result: nat)
    requires input <= SIZE_MAX
    ensures result == BitLength(input)
  {
    var value := input;
    result := 0;
    var i := 0;
    while i < 7
      invariant 0 <= i <= 7
      invariant value <= BOUND[i]
      invariant result + BitLength(value) == BitLength(input)
    {
      Thresholds(i);
      if value >= ALL_SET[i] {
        SearchStep(value, COUNT[i], BOUND[i + 1]);
        value := ShiftRight(value, COUNT[i]);
        result := result + COUNT[i];
      }
      i := i + 1;
    }
    assert BitLength(0) == 0;
    result := result + value;
  }

  lemma SearchStep(value: nat, count: nat, bound: nat)
    requires Pow2(count) - 1 <= value < Pow2(count) * (bound + 1)
    ensures BitLength(value) == count + BitLength(ShiftRight(value, count))
    ensures ShiftRight(value, count) <= bound
  {
    BitLengthShift(value, count);
    ShiftBound(value, count, bound);
  }

  lemma ShiftAmounts()
    ensures Pow2(32) == 4294967296 && Pow2(16) == 65536 && Pow2(8) == 256 && Pow2(4) == 16 && Pow2(2) == 4
              && Pow2(1) == 2
  {
    Pow2Sum(2, 2);
    Pow2Sum(4, 4);
    Pow2Sum(8, 8);
    Pow2Sum(16, 16);
  }

  /** The exponent of the smallest power of two that is at least `v`. */
  function CeilLog(v: nat): (k: nat)
    requires v > 0
    ensures v <= Pow2(k) && (k > 0 ==> Pow2(k - 1) < v)
  {
    if v == 1 then 0 else 1 + CeilLog((v + 1) / 2)
  }

  lemma CeilLogUnique(v: nat, k: nat)
    requires v > 0 && v <= Pow2(k) && (k > 0 ==> Pow2(k - 1) < v)
    ensures CeilLog(v) == k
  {
    if CeilLog(v) < k { Pow2Monotone(CeilLog(v), k - 1); }
    if k < CeilLog(v) { Pow2Monotone(k, CeilLog(v) - 1); }
  }

  /** ceiling_power_of_two: the smallest power of two at least `input`, and 1 for 0. */
  method CeilingPowerOfTwo(input: nat) returns (r: nat)
    requires 2 * input <= SIZE_MAX
    ensures r == if input == 0 then 1 else Pow2(CeilLog(input))
  {
    var value := input + if input == 0 then 1 else 0;
    var position := HighestBitPosition(value + value - 1);
    BitLengthBounds(value + value - 1);
    r := Pow2(position - 1);
    if position > 1 { assert Pow2(position - 1) == 2 * Pow2(position - 2); }
    CeilLogUnique(value, position - 1);
  }

  lemma {:induction false} BitLengthPow2(k: nat)
    ensures BitLength(Pow2(k)) == k + 1
  {
    if k > 0 {
      BitLengthPow2(k - 1);
      assert Pow2(k) / 2 == Pow2(k - 1);
    } else {
      assert BitLength(0) == 0;
    }
  }

  lemma MulMonotone(a: nat, x: nat, y: nat)
    requires x <= y
    ensures a * x <= a * y
  {
  }

  lemma DivModUnique(x: nat, a: nat, q: nat, r: nat)
    requires 0 < a && x == a * q + r && r < a
    ensures x / a == q && x % a == r
  {
    var d := x / a;
    assert x == a * d + x % a;
    if d < q { MulMonotone(a, d + 1, q); }
    if q < d { MulMonotone(a, q + 1, d); }
  }

  lemma AddMod(a: nat, x: nat)
    requires 0 < a
    ensures (a + x) % a == x % a && (a + x) / a == x / a + 1
  {
    var d := x / a;
    assert x == a * d + x % a;
    assert a * (d + 1) == a * d + a;
    DivModUnique(a + x, a, d + 1, x % a);
  }
}
