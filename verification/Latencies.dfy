/** Latencies, and the two ways of looking them up in a profile. */
module Latencies {
  import opened Wrappers
  import opened BuddyLayout
  import opened BuddyArith

  /** A non-NaN double: exact reals with infinity. */
  datatype Latency = Fin(r: real) | Inf

  const ZERO := Fin(0.0)

  function Plus(a: Latency, b: Latency): Latency {
    if a.Fin? && b.Fin? then Fin(a.r + b.r) else Inf
  }

  /** Only finite latencies are ever subtracted. */
  function Minus(a: Latency, b: Latency): Latency
    requires b.Fin?
  {
    if a.Fin? then Fin(a.r - b.r) else Inf
  }

  predicate Less(a: Latency, b: Latency) {
    a.Fin? && (b.Inf? || a.r < b.r)
  }

  predicate AtMost(a: Latency, b: Latency) {
    !Less(b, a)
  }

  function Max(a: Latency, b: Latency): Latency {
    if Less(a, b) then b else a
  }

  predicate NonNegative(a: Latency) {
    a.Fin? ==> a.r >= 0.0
  }

  // ---------------------------------------------------------------- sums over reservations

  /** The sum over `ids`, in whatever order. */
  ghost function SumOver<T(!new)>(ids: set<T>, f: map<T, Latency>): Latency
    requires ids <= f.Keys
    decreases |ids|
  {
    if ids == {} then ZERO
    else
      var x :| x in ids;
      Plus(f[x], SumOver(ids - {x}, f))
  }

  lemma SumNothing<T(!new)>(f: map<T, Latency>)
    ensures SumOver({}, f) == ZERO
  {
  }

  lemma {:induction false} SumSplit<T(!new)>(ids: set<T>, f: map<T, Latency>, x: T)
    requires ids <= f.Keys && x in ids
    ensures SumOver(ids, f) == Plus(f[x], SumOver(ids - {x}, f))
    decreases |ids|
  {
    var y :| y in ids && SumOver(ids, f) == Plus(f[y], SumOver(ids - {y}, f));
    if x != y {
      var rest := ids - {x, y};
      assert ids - {y} - {x} == rest && ids - {x} - {y} == rest;
      SumSplit(ids - {y}, f, x);
      SumSplit(ids - {x}, f, y);
      Rearranged(f[x], f[y], SumOver(rest, f));
    }
  }

  lemma Rearranged(a: Latency, b: Latency, c: Latency)
    ensures Plus(a, Plus(b, c)) == Plus(b, Plus(a, c))
  {
  }

  lemma {:induction false} SumNonNegative<T(!new)>(ids: set<T>, f: map<T, Latency>)
    requires ids <= f.Keys && forall x | x in ids :: NonNegative(f[x])
    ensures NonNegative(SumOver(ids, f))
    decreases |ids|
  {
    if ids != {} {
      var x :| x in ids;
      SumNonNegative(ids - {x}, f);
      SumSplit(ids, f, x);
    }
  }

  lemma {:induction false} SumSame<T(!new)>(ids: set<T>, f: map<T, Latency>, f': map<T, Latency>)
    requires ids <= f.Keys && ids <= f'.Keys && forall x | x in ids :: f[x] == f'[x]
    ensures SumOver(ids, f) == SumOver(ids, f')
    decreases |ids|
  {
    if ids != {} {
      var x :| x in ids;
      SumSame(ids - {x}, f, f');
      SumSplit(ids, f, x);
      SumSplit(ids, f', x);
    }
  }

  // ---------------------------------------------------------------- execution profiles

  datatype Key = Key(mode: string, batch: int, height: int, width: int)

  type Table = map<Key, Latency>

  function Abs(x: int): nat {
    if x < 0 then -x else x
  }

  function Distance(k: Key, height: int, width: int): nat {
    Abs(k.height - height) + Abs(k.width - width)
  }

  /** `x` is `a` or `b` or between them. */
  predicate BetweenOr(x: int, a: int, b: int) {
    a <= x <= b || b <= x <= a
  }

  /**
   * The distance is zero for the query's own shape only, and moving the query away from the entry by
   * `d` in height or in width adds `d`.
   */
  lemma DistanceMeans(k: Key, height: int, width: int, d: nat)
    ensures Distance(k, height, width) == 0 <==> k.height == height && k.width == width
    ensures height >= k.height ==> Distance(k, height + d, width) == Distance(k, height, width) + d
    ensures height <= k.height ==> Distance(k, height - d, width) == Distance(k, height, width) + d
    ensures width >= k.width ==> Distance(k, height, width + d) == Distance(k, height, width) + d
    ensures width <= k.width ==> Distance(k, height, width - d) == Distance(k, height, width) + d
  {
  }

  /** Entries the nearest-resolution search looks at. */
  predicate Candidate(table: Table, mode: string, batch: int, k: Key) {
    k in table && k.mode == mode && k.batch == batch && k.height > 0 && k.width > 0
  }

  /** `(d, l)` comes before or with `(d', l')`. */
  predicate Before(d: nat, l: Latency, d': nat, l': Latency) {
    d < d' || (d == d' && AtMost(l, l'))
  }

  /** The latency at the nearest profiled resolution, the smallest of those equally near; infinite if there is none. */
  ghost predicate IsNearest(table: Table, mode: string, batch: int, height: int, width: int, l: Latency) {
    || ((forall k | k in table :: !Candidate(table, mode, batch, k)) && l == Inf)
    || exists k :: Candidate(table, mode, batch, k) && table[k] == l
                   && forall k' | k' in table && Candidate(table, mode, batch, k') ::
                        Before(Distance(k, height, width), l, Distance(k', height, width), table[k'])
  }

  /** The latency is the one of entry `k`, which no candidate comes before. */
  ghost predicate NearestEntry(table: Table, mode: string, batch: int, height: int, width: int, k: Key, l: Latency) {
    && Candidate(table, mode, batch, k) && table[k] == l
    && forall k' | k' in table && Candidate(table, mode, batch, k') ::
         Before(Distance(k, height, width), l, Distance(k', height, width), table[k'])
  }

  /** No candidate other than the nearest entry itself lies, in height and in width, between it and the query. */
  lemma NearestNotBeyond(table: Table, mode: string, batch: int, height: int, width: int, k: Key, l: Latency, k': Key)
    requires NearestEntry(table, mode, batch, height, width, k, l) && Candidate(table, mode, batch, k')
    requires BetweenOr(k'.height, height, k.height) && BetweenOr(k'.width, width, k.width)
    ensures k' == k
  {
  }

  /** Of the entries of the query's height none is nearer in width. */
  lemma NearestInWidth(table: Table, mode: string, batch: int, height: int, width: int, k: Key, l: Latency, k': Key,
                       d: nat)
    requires NearestEntry(table, mode, batch, height, width, k, l) && Candidate(table, mode, batch, k')
    requires k.height == height == k'.height && (k'.width == width + d || k'.width == width - d)
    ensures width - d <= k.width <= width + d
  {
  }

  /** Of two entries of the query's height the latency is the one of the entry nearer in width. */
  lemma WidthDecides()
    ensures var near, far := Key("run", 1, 1024, 1024), Key("run", 1, 1024, 512);
            IsNearest(map[near := Fin(3.0), far := Fin(1.0)], "run", 1, 1024, 960, Fin(3.0))
  {
    var near, far := Key("run", 1, 1024, 1024), Key("run", 1, 1024, 512);
    var table := map[near := Fin(3.0), far := Fin(1.0)];
    assert Distance(near, 1024, 960) == 64 && Distance(far, 1024, 960) == 448;
    assert Candidate(table, "run", 1, near);
  }

  lemma NearestUnique(table: Table, mode: string, batch: int, height: int, width: int, l: Latency, l': Latency)
    requires IsNearest(table, mode, batch, height, width, l) && IsNearest(table, mode, batch, height, width, l')
    ensures l == l'
  {
  }

  /** The best of the entries in `seen`: what both searches keep. */
  ghost predicate BestOf(table: Table, mode: string, batch: int, height: int, width: int, seen: set<Key>,
                         best: Option<Key>)
    requires seen <= table.Keys
  {
    match best
    case None => forall k | k in seen :: !Candidate(table, mode, batch, k)
    case Some(k) =>
      && k in seen && Candidate(table, mode, batch, k)
      && forall k' | k' in seen && Candidate(table, mode, batch, k') ::
           Before(Distance(k, height, width), table[k], Distance(k', height, width), table[k'])
  }

  /** One more entry: it is better only when it comes strictly before the best so far. */
  function BetterKey(table: Table, mode: string, batch: int, height: int, width: int, best: Option<Key>, k: Key)
    : Option<Key>
    requires k in table && (best.Some? ==> best.value in table)
  {
    if Candidate(table, mode, batch, k)
       && (best.None? || !Before(Distance(best.value, height, width), table[best.value], Distance(k, height, width),
                                 table[k]))
    then Some(k) else best
  }

  lemma BestMore(table: Table, mode: string, batch: int, height: int, width: int, seen: set<Key>, best: Option<Key>,
                 k: Key)
    requires seen <= table.Keys && k in table && BestOf(table, mode, batch, height, width, seen, best)
    ensures best.Some? ==> best.value in table
    ensures BestOf(table, mode, batch, height, width, seen + {k}, BetterKey(table, mode, batch, height, width, best, k))
  {
  }

  /** Reference search: the least (distance, latency) pair over all candidates. */
  method NearestReference(table: Table, mode: string, batch: int, height: int, width: int) returns (l: Latency)
    ensures IsNearest(table, mode, batch, height, width, l)
  {
    hide BestOf;
    var best: Option<Key> := None;
    var keys := table.Keys;
    ghost var seen: set<Key> := {};
    BestOfNothing(table, mode, batch, height, width);
    while keys != {}
      invariant keys + seen == table.Keys && BestOf(table, mode, batch, height, width, seen, best)
      invariant best.Some? ==> best.value in table
      decreases |keys|
    {
      var k :| k in keys;
      BestMore(table, mode, batch, height, width, seen, best, k);
      if Candidate(table, mode, batch, k) {
        if best.None? || !Before(Distance(best.value, height, width), table[best.value], Distance(k, height, width),
                                 table[k]) {
          best := Some(k);
        }
      }
      keys, seen := keys - {k}, seen + {k};
    }
    assert seen == table.Keys;
    BestIsNearest(table, mode, batch, height, width, best);
    return if best.None? then Inf else table[best.value];
  }

  /** Compiled search: a best distance and a best latency so far, both infinite at first. */
  method NearestCompiled(table: Table, mode: string, batch: int, height: int, width: int) returns (l: Latency)
    ensures IsNearest(table, mode, batch, height, width, l)
  {
    hide BestOf;
    var bestDistance: Option<nat> := None;
    l := Inf;
    var keys := table.Keys;
    ghost var seen: set<Key>, best: Option<Key> := {}, None;
    BestOfNothing(table, mode, batch, height, width);
    while keys != {}
      invariant keys + seen == table.Keys && BestOf(table, mode, batch, height, width, seen, best)
      invariant best.Some? ==> best.value in table
      invariant bestDistance == (if best.None? then None else Some(Distance(best.value, height, width)))
      invariant l == if best.None? then Inf else table[best.value]
      decreases |keys|
    {
      var k :| k in keys;
      BestMore(table, mode, batch, height, width, seen, best, k);
      if Candidate(table, mode, batch, k) {
        var distance := Distance(k, height, width);
        if bestDistance.None? || distance < bestDistance.value
            || (distance == bestDistance.value && Less(table[k], l)) {
          bestDistance, l, best := Some(distance), table[k], Some(k);
        }
      }
      keys, seen := keys - {k}, seen + {k};
    }
    assert seen == table.Keys;
    BestIsNearest(table, mode, batch, height, width, best);
  }

  lemma BestOfNothing(table: Table, mode: string, batch: int, height: int, width: int)
    ensures BestOf(table, mode, batch, height, width, {}, None)
  {
  }

  lemma BestIsNearest(table: Table, mode: string, batch: int, height: int, width: int, best: Option<Key>)
    requires BestOf(table, mode, batch, height, width, table.Keys, best)
    ensures best.Some? ==> best.value in table
    ensures IsNearest(table, mode, batch, height, width, if best.None? then Inf else table[best.value])
  {
  }

  /** The nearest-resolution latency as a function of the query. */
  ghost function Nearest(table: Table, mode: string, batch: int, height: int, width: int): (l: Latency)
    ensures IsNearest(table, mode, batch, height, width, l)
  {
    NearestExists(table, mode, batch, height, width, table.Keys);
    var l :| IsNearest(table, mode, batch, height, width, l);
    l
  }

  lemma {:induction false} BestExists(table: Table, mode: string, batch: int, height: int, width: int, seen: set<Key>)
    returns (best: Option<Key>)
    requires seen <= table.Keys
    ensures BestOf(table, mode, batch, height, width, seen, best)
    decreases |seen|
  {
    if seen == {} {
      best := None;
    } else {
      var k :| k in seen;
      best := BestExists(table, mode, batch, height, width, seen - {k});
      BestMore(table, mode, batch, height, width, seen - {k}, best, k);
      best := BetterKey(table, mode, batch, height, width, best, k);
      assert seen - {k} + {k} == seen;
    }
  }

  lemma NearestExists(table: Table, mode: string, batch: int, height: int, width: int, all: set<Key>)
    requires all == table.Keys
    ensures exists l :: IsNearest(table, mode, batch, height, width, l)
  {
    var best := BestExists(table, mode, batch, height, width, all);
    BestIsNearest(table, mode, batch, height, width, best);
  }

  // ---------------------------------------------------------------- batch sizes

  const LLONG_MAX: nat := 0x7FFF_FFFF_FFFF_FFFF

  datatype BatchError = NotPositive | TooLarge

  /** `1 << (value - 1).bit_length()` */
  method NextPowerReference(value: int) returns (r: Result<nat, BatchError>)
    ensures r == if value < 1 then Err(NotPositive) else Ok(Pow2(CeilLog(value)))
  {
    if value < 1 { return Err(NotPositive); }
    BitLengthIsCeilLog(value);
    return Ok(Pow2(BitLength(value - 1)));
  }

  lemma BitLengthIsCeilLog(value: nat)
    requires value >= 1
    ensures BitLength(value - 1) == CeilLog(value)
  {
    if value > 1 { BitLengthBounds(value - 1); } else { assert BitLength(0) == 0; }
    CeilLogUnique(value, BitLength(value - 1));
  }

  /** Doubling from 1 in 64-bit integers; refuses to double past the largest. */
  method NextPowerCompiled(value: int) returns (r: Result<nat, BatchError>)
    requires value <= LLONG_MAX
    ensures r == if value < 1 then Err(NotPositive) else
              if value > Pow2(62) then Err(TooLarge) else Ok(Pow2(CeilLog(value)))
    ensures r.Ok? ==> r.value <= LLONG_MAX
  {
    if value < 1 { return Err(NotPositive); }
    var result := 1;
    ghost var k := 0;
    LargestPower();
    while result < value
      invariant result == Pow2(k) && (k > 0 ==> Pow2(k - 1) < value) && k <= 62
      decreases value - result
    {
      if result > LLONG_MAX / 2 {
        PowerTooLarge(k);
        return Err(TooLarge);
      }
      PowerSmall(k);
      result := result * 2;
      k := k + 1;
    }
    CeilLogUnique(value, k);
    Pow2Monotone(k, 62);
    return Ok(result);
  }

  lemma LargestPower()
    ensures Pow2(62) == 0x4000_0000_0000_0000 && Pow2(62) == LLONG_MAX / 2 + 1
  {
    ShiftAmounts();
    Pow2Sum(16, 16);
    Pow2Sum(32, 16);
    Pow2Sum(48, 8);
    Pow2Sum(56, 4);
    Pow2Sum(60, 2);
  }

  lemma PowerTooLarge(k: nat)
    requires k <= 62 && Pow2(k) > LLONG_MAX / 2
    ensures k == 62
  {
    LargestPower();
    assert Pow2(62) == 2 * Pow2(61);
    if k < 62 { Pow2Monotone(k, 61); }
  }

  lemma PowerSmall(k: nat)
    requires k <= 62 && Pow2(k) <= LLONG_MAX / 2
    ensures k < 62
  {
    LargestPower();
  }

  // ---------------------------------------------------------------- execution latency

  datatype Flavor = Reference | Compiled

  ghost function Adjusted(flavor: Flavor, batch: int): Result<nat, BatchError> {
    if batch < 1 then Err(NotPositive)
    else if flavor.Compiled? && batch > Pow2(62) then Err(TooLarge)
    else Ok(Pow2(CeilLog(batch)))
  }

  /** An exact shape first; then, in the compiled core, an entry without a shape; then the nearest one. */
  ghost function AtBatch(flavor: Flavor, table: Table, mode: string, batch: nat, height: int, width: int): Latency {
    if height > 0 && width > 0 && Key(mode, batch, height, width) in table then table[Key(mode, batch, height, width)]
    else if flavor.Compiled? && Key(mode, batch, 0, 0) in table then table[Key(mode, batch, 0, 0)]
    else Nearest(table, mode, batch, height, width)
  }

  ghost function ExecutionLatency(flavor: Flavor, table: Table, mode: string, batch: int, height: int, width: int)
    : Result<Latency, BatchError>
  {
    var adjusted :- Adjusted(flavor, batch);
    Ok(AtBatch(flavor, table, mode, adjusted, height, width))
  }

  method LookupReference(table: Table, mode: string, batch: int, height: int, width: int)
    returns (r: Result<Latency, BatchError>)
    ensures r == ExecutionLatency(Reference, table, mode, batch, height, width)
  {
    var adjusted := NextPowerReference(batch);
    if adjusted.Err? { return Err(adjusted.error); }
    if height > 0 && width > 0 {
      var exact := Key(mode, adjusted.value, height, width);
      if exact in table { return Ok(table[exact]); }
    }
    var l := NearestReference(table, mode, adjusted.value, height, width);
    NearestUnique(table, mode, adjusted.value, height, width, l, Nearest(table, mode, adjusted.value, height, width));
    return Ok(l);
  }

  method LookupCompiled(table: Table, mode: string, batch: int, height: int, width: int)
    returns (r: Result<Latency, BatchError>)
    requires batch <= LLONG_MAX
    ensures r == ExecutionLatency(Compiled, table, mode, batch, height, width)
  {
    var adjusted := NextPowerCompiled(batch);
    if adjusted.Err? { return Err(adjusted.error); }
    if height > 0 && width > 0 {
      var exact := Key(mode, adjusted.value, height, width);
      if exact in table { return Ok(table[exact]); }
    }
    var legacy := Key(mode, adjusted.value, 0, 0);
    if legacy in table { return Ok(table[legacy]); }
    var l := NearestCompiled(table, mode, adjusted.value, height, width);
    NearestUnique(table, mode, adjusted.value, height, width, l, Nearest(table, mode, adjusted.value, height, width));
    return Ok(l);
  }

  /** The query has its own entry, so nothing else is consulted. */
  predicate HasExact(table: Table, mode: string, batch: int, height: int, width: int) {
    height > 0 && width > 0 && Key(mode, batch, height, width) in table
  }

  /**
   * The two lookups answer a query alike exactly when the batch size is at most two to the 62nd
   * (or not positive), and no entry without a shape decides it with a latency of its own.
   */
  lemma LookupsAgreeExactly(table: Table, mode: string, batch: int, height: int, width: int)
    ensures ExecutionLatency(Reference, table, mode, batch, height, width)
              == ExecutionLatency(Compiled, table, mode, batch, height, width)
            <==> batch < 1 || (batch <= Pow2(62) &&
                   var b := Pow2(CeilLog(batch));
                   (HasExact(table, mode, b, height, width) || Key(mode, b, 0, 0) !in table
                    || IsNearest(table, mode, b, height, width, table[Key(mode, b, 0, 0)])))
  {
    if 1 <= batch <= Pow2(62) {
      var b := Pow2(CeilLog(batch));
      if Key(mode, b, 0, 0) in table && IsNearest(table, mode, b, height, width, table[Key(mode, b, 0, 0)]) {
        NearestUnique(table, mode, b, height, width, table[Key(mode, b, 0, 0)], Nearest(table, mode, b, height, width));
      }
    }
  }

  /**
   * One entry with a shape and one without: the compiled core answers with the latter, the reference
   * with the former.
   */
  lemma UnshapedEntryDecides()
    ensures var table := map[Key("m", 1, 512, 512) := Fin(1.0), Key("m", 1, 0, 0) := Fin(9.0)];
            && ExecutionLatency(Reference, table, "m", 1, 1024, 1024) == Ok(Fin(1.0))
            && ExecutionLatency(Compiled, table, "m", 1, 1024, 1024) == Ok(Fin(9.0))
  {
    var shaped := Key("m", 1, 512, 512);
    var table := map[shaped := Fin(1.0), Key("m", 1, 0, 0) := Fin(9.0)];
    assert CeilLog(1) == 0 && Pow2(0) == 1;
    LargestPower();
    assert Candidate(table, "m", 1, shaped) && table[shaped] == Fin(1.0);
    assert forall k | k in table && Candidate(table, "m", 1, k) :: k == shaped;
    assert IsNearest(table, "m", 1, 1024, 1024, Fin(1.0));
    NearestUnique(table, "m", 1, 1024, 1024, Fin(1.0), Nearest(table, "m", 1, 1024, 1024));
  }
}
