/** A worker's cache of models in GPU memory: least recently used first, evicted to CPU memory to make room. */
module ModelCache {
  import opened Wrappers

  type Model = string

  datatype LoadError = InsufficientTotalMemory(required: nat, budget: nat)

  function Sum(models: seq<Model>, usage: map<Model, nat>): nat
    requires forall m | m in models :: m in usage
  {
    if models == [] then 0 else usage[models[0]] + Sum(models[1..], usage)
  }

  lemma {:induction false} SumAppend(a: seq<Model>, b: seq<Model>, usage: map<Model, nat>)
    requires forall m | m in a + b :: m in usage
    ensures (forall m | m in a :: m in usage) && (forall m | m in b :: m in usage)
    ensures Sum(a + b, usage) == Sum(a, usage) + Sum(b, usage)
  {
    assert forall m | m in a :: m in a + b;
    assert forall m | m in b :: m in a + b;
    if a == [] {
      assert a + b == b;
    } else {
      assert (a + b)[1..] == a[1..] + b;
      SumAppend(a[1..], b, usage);
    }
  }

  lemma {:induction false} SumSame(models: seq<Model>, usage: map<Model, nat>, usage': map<Model, nat>)
    requires forall m | m in models :: m in usage && m in usage' && usage[m] == usage'[m]
    ensures Sum(models, usage) == Sum(models, usage')
  {
    if models != [] { SumSame(models[1..], usage, usage'); }
  }

  ghost predicate Distinct(models: seq<Model>) {
    forall i, j | 0 <= i < j < |models| :: models[i] != models[j]
  }

  function Elements(models: seq<Model>): set<Model> {
    set m | m in models
  }

  /** `k` is the length of the shortest prefix that frees `required`, or of everything if nothing does. */
  ghost predicate Shortest(models: seq<Model>, usage: map<Model, nat>, required: int, k: nat)
    requires forall m | m in models :: m in usage
  {
    && k <= |models|
    && (k == |models| || Sum(models[..k], usage) >= required)
    && forall j: nat | j < k :: Sum(models[..j], usage) < required
  }

  class Cache {
    const budget: nat
    /** Resident models, least recently used first. */
    var gpu: seq<Model>
    var cpu: set<Model>
    var usage: map<Model, nat>
    var accesses: map<Model, nat>

    ghost predicate Valid()
      reads this
    {
      Distinct(gpu) && usage.Keys == Elements(gpu) && Elements(gpu) !! cpu
    }

    ghost function Used(): nat
      requires Valid()
      reads this
    {
      Sum(gpu, usage)
    }

    /** The base sizes of all residents but the most recently used one. */
    ghost function Others(): nat
      requires Valid() && gpu != []
      reads this
    {
      Sum(gpu[..|gpu| - 1], usage)
    }

    constructor (budget: nat, prefetched: set<Model>)
      ensures Valid() && this.budget == budget && gpu == [] && cpu == prefetched
    {
      this.budget := budget;
      gpu, cpu, usage, accesses := [], prefetched, map[], map[];
    }

    /** _get_available_gpu_memory, with the memory used taken to be the residents' base sizes. */
    method Available() returns (available: int)
      requires Valid()
      ensures available == budget - Used()
    {
      var used, i := 0, 0;
      while i < |gpu|
        invariant i <= |gpu| && used == Sum(gpu[..i], usage)
      {
        used := used + usage[gpu[i]];
        assert gpu[..i + 1] == gpu[..i] + [gpu[i]];
        SumAppend(gpu[..i], [gpu[i]], usage);
        i := i + 1;
      }
      assert gpu[..|gpu|] == gpu;
      available := budget - used;
    }

    /** _move_model_to_cpu, of the least recently used model. */
    method EvictFirst()
      requires Valid() && gpu != []
      modifies this`gpu, this`cpu, this`usage
      ensures Valid() && gpu == old(gpu)[1..] && cpu == old(cpu) + {old(gpu)[0]} && usage == old(usage) - {old(gpu)[0]}
    {
      var first := gpu[0];
      assert gpu == [first] + gpu[1..];
      cpu := cpu + {first};
      FirstGone(gpu);
      gpu := gpu[1..];
      usage := usage - {first};
    }

    /** _evict_models_for_memory: the shortest least recently used prefix that frees enough, or everything. */
    method Evict(required: int) returns (ghost k: nat)
      requires Valid()
      modifies this`gpu, this`cpu, this`usage
      ensures Valid() && k <= |old(gpu)| && Shortest(old(gpu), old(usage), required, k)
      ensures gpu == old(gpu)[k..] && cpu == old(cpu) + Elements(old(gpu)[..k])
                && usage == old(usage) - Elements(old(gpu)[..k])
    {
      hide Sum, Elements, Distinct;
      ghost var models, sizes, outside := gpu, usage, cpu;
      var evicted: nat := 0;
      k := 0;
      EvictedNone(models, sizes, outside, required);
      while evicted < required && gpu != []
        invariant Valid() && k <= |models| && gpu == models[k..]
        invariant Evicted(models, sizes, outside, required, k, evicted, cpu, usage)
        decreases |gpu|
      {
        var memory := if gpu[0] in usage then usage[gpu[0]] else 0;
        EvictedMore(models, sizes, outside, required, k, evicted, cpu, usage);
        EvictFirst();
        evicted := evicted + memory;
        k := k + 1;
      }
    }

    /** A used model becomes the most recently used one. */
    method MoveToEnd(m: Model)
      requires Valid() && m in gpu
      modifies this`gpu
      ensures Valid() && gpu == Without(old(gpu), m) + [m]
    {
      WithoutOne(gpu, m);
      gpu := Without(gpu, m) + [m];
    }

    /**
     * _ensure_model_in_gpu: afterwards the model is the most recently used resident. The other
     * residents and its peak then fit the budget, except that no room is made for a model that was
     * resident already: they fit if and only if what the peak adds to its base size did before.
     * Bases within peaks keep the residents within the budget.
     */
    method EnsureInGpu(m: Model, hasPath: bool, base: nat, peak: nat) returns (error: Option<LoadError>, ghost k: nat)
      requires Valid()
      modifies this
      ensures Valid()
      ensures !hasPath || error.Some? ==> gpu == old(gpu) && cpu == old(cpu) && usage == old(usage)
      ensures error.Some? <==> hasPath && peak > budget
      ensures hasPath && error.None? && m in old(gpu) ==>
                k == 0 && gpu == Without(old(gpu), m) + [m] && cpu == old(cpu) && usage == old(usage)
      ensures hasPath && error.None? && m !in old(gpu) ==>
                && Shortest(old(gpu), old(usage), peak - (budget - old(Used())), k)
                && gpu == old(gpu)[k..] + [m]
                && cpu == old(cpu) + Elements(old(gpu)[..k]) - {m}
                && usage == (old(usage) - Elements(old(gpu)[..k]))[m := base]
      ensures hasPath && error.None? ==>
                && gpu != [] && gpu[|gpu| - 1] == m
                && (Others() + peak <= budget
                    <==> (m in old(gpu) ==> peak - old(usage)[m] <= budget - old(Used())))
      ensures old(Used()) <= budget && base <= peak ==> Used() <= budget
    {
      hide Distinct, Shortest, Without, Sum;
      k := 0;
      if !hasPath { return None, 0; }
      if peak > budget { return Some(InsufficientTotalMemory(peak, budget)), 0; }
      if m in gpu {
        ResidentUsed(gpu, usage, m);
        MoveToEnd(m);
        accesses := accesses[m := (if m in accesses then accesses[m] else 0) + 1];
        return None, 0;
      }
      var available := Available();
      k := Evict(peak - available);
      MakesRoom(budget, old(gpu), old(usage), peak, k);
      LoadedUsed(old(gpu)[k..], old(usage), usage, m, base);
      Load(m, base);
      return None, k;
    }

    /** Brings in a model that is not resident, from CPU memory or from its files. */
    method Load(m: Model, base: nat)
      requires Valid() && m !in gpu
      modifies this`gpu, this`cpu, this`usage, this`accesses
      ensures Valid() && gpu == old(gpu) + [m] && cpu == old(cpu) - {m} && usage == old(usage)[m := base]
    {
      var cached := m in cpu;
      gpu := gpu + [m];
      cpu := cpu - {m};
      usage := usage[m := base];
      if !cached {
        accesses := accesses[m := (if m in accesses then accesses[m] else 0) + 1];
      }
    }
  }

  /** The state of the eviction loop after `k` victims: until then they did not free enough. */
  ghost predicate Evicted(models: seq<Model>, sizes: map<Model, nat>, outside: set<Model>, required: int, k: nat,
                          evicted: nat, cpu: set<Model>, usage: map<Model, nat>)
    requires k <= |models|
  {
    && sizes.Keys == Elements(models) && Distinct(models)
    && cpu == outside + Elements(models[..k]) && usage == sizes - Elements(models[..k])
    && evicted == Sum(models[..k], sizes)
    && forall j: nat | j < k :: Sum(models[..j], sizes) < required
  }

  lemma EvictedNone(models: seq<Model>, sizes: map<Model, nat>, outside: set<Model>, required: int)
    requires sizes.Keys == Elements(models) && Distinct(models)
    ensures Evicted(models, sizes, outside, required, 0, 0, outside, sizes)
  {
    assert Elements(models[..0]) == {};
  }

  lemma EvictedMore(models: seq<Model>, sizes: map<Model, nat>, outside: set<Model>, required: int, k: nat,
                    evicted: nat, cpu: set<Model>, usage: map<Model, nat>)
    requires k < |models| && Evicted(models, sizes, outside, required, k, evicted, cpu, usage) && evicted < required
    ensures models[k] in usage
    ensures Evicted(models, sizes, outside, required, k + 1, evicted + usage[models[k]], cpu + {models[k]},
                    usage - {models[k]})
  {
    assert models[k] !in models[..k];
    PrefixMore(models, sizes, k);
    assert sizes - Elements(models[..k + 1]) == usage - {models[k]};
  }

  function Without(models: seq<Model>, m: Model): seq<Model> {
    if models == [] then []
    else if models[0] == m then models[1..]
    else [models[0]] + Without(models[1..], m)
  }

  lemma FirstGone(models: seq<Model>)
    requires Distinct(models) && models != []
    ensures Distinct(models[1..]) && Elements(models[1..]) == Elements(models) - {models[0]}
  {
    assert models == [models[0]] + models[1..];
    forall i | 0 <= i < |models[1..]| ensures models[1..][i] != models[0] {
      assert models[1..][i] == models[i + 1];
    }
  }

  lemma {:induction false} WithoutOne(models: seq<Model>, m: Model)
    requires Distinct(models) && m in models
    ensures Distinct(Without(models, m) + [m]) && Elements(Without(models, m) + [m]) == Elements(models)
    ensures m !in Without(models, m) && |Without(models, m)| == |models| - 1
  {
    FirstGone(models);
    var rest := models[1..];
    if models[0] == m {
      assert m !in Elements(rest);
    } else {
      assert models == [models[0]] + rest;
      WithoutOne(rest, m);
      var less := Without(rest, m);
      assert Without(models, m) == [models[0]] + less;
      assert models[0] !in Elements(rest);
      assert forall x | x in less :: x in less + [m];
      assert models[0] !in less;
      assert Elements([models[0]] + less + [m]) == {models[0]} + Elements(less + [m]);
      assert Elements(models) == {models[0]} + Elements(rest);
      forall i, j | 0 <= i < j < |[models[0]] + less + [m]|
        ensures ([models[0]] + less + [m])[i] != ([models[0]] + less + [m])[j]
      {
        if i == 0 {
          assert ([models[0]] + less + [m])[j] in less + [m];
        } else {
          assert (less + [m])[i - 1] != (less + [m])[j - 1];
        }
      }
    }
  }

  lemma PrefixMore(models: seq<Model>, usage: map<Model, nat>, k: nat)
    requires k < |models| && forall m | m in models :: m in usage
    ensures forall m | m in models[..k] :: m in usage
    ensures Sum(models[..k + 1], usage) == Sum(models[..k], usage) + usage[models[k]]
    ensures Elements(models[..k + 1]) == Elements(models[..k]) + {models[k]}
  {
    assert models[..k + 1] == models[..k] + [models[k]];
    SumAppend(models[..k], [models[k]], usage);
  }

  /** Evicting the shortest sufficient prefix leaves room for the peak, within any budget that the peak alone fits. */
  lemma MakesRoom(budget: nat, models: seq<Model>, usage: map<Model, nat>, peak: nat, k: nat)
    requires (forall m | m in models :: m in usage) && peak <= budget
    requires Shortest(models, usage, peak - (budget - Sum(models, usage)), k)
    ensures forall m | m in models[k..] :: m in usage
    ensures Sum(models[k..], usage) + peak <= budget
  {
    assert models[..k] + models[k..] == models;
    SumAppend(models[..k], models[k..], usage);
    if k == |models| { assert models[k..] == []; }
  }

  /** One victim fewer would not have done. */
  lemma NoFewerVictims(budget: nat, models: seq<Model>, usage: map<Model, nat>, peak: nat, k: nat, j: nat)
    requires forall m | m in models :: m in usage
    requires Shortest(models, usage, peak - (budget - Sum(models, usage)), k) && j < k
    ensures Sum(models[j..], usage) + peak > budget
  {
    assert models[..j] + models[j..] == models;
    SumAppend(models[..j], models[j..], usage);
  }

  /** What is used, and what is used besides the model, after loading it. */
  lemma LoadedUsed(others: seq<Model>, before: map<Model, nat>, usage: map<Model, nat>, m: Model, base: nat)
    requires m !in others && forall x | x in others :: x in before && x in usage && usage[x] == before[x]
    ensures (others + [m])[..|others + [m]| - 1] == others && forall x | x in others + [m] :: x in usage[m := base]
    ensures Sum(others, usage[m := base]) == Sum(others, before)
    ensures Sum(others + [m], usage[m := base]) == Sum(others, before) + base
  {
    SumSame(others, before, usage[m := base]);
    SumAppend(others, [m], usage[m := base]);
  }

  /** What is used, and what is used besides the model, after a hit. */
  lemma ResidentUsed(models: seq<Model>, usage: map<Model, nat>, m: Model)
    requires Distinct(models) && m in models && forall x | x in models :: x in usage
    ensures var after := Without(models, m) + [m];
            && after[..|after| - 1] == Without(models, m) && (forall x | x in after :: x in usage)
            && Sum(after, usage) == Sum(models, usage)
              && Sum(Without(models, m), usage) == Sum(models, usage) - usage[m]
  {
    SumWithout(models, usage, m);
    SumAppend(Without(models, m), [m], usage);
  }

  lemma {:induction false} SumWithout(models: seq<Model>, usage: map<Model, nat>, m: Model)
    requires Distinct(models) && m in models && forall x | x in models :: x in usage
    ensures forall x | x in Without(models, m) :: x in usage
    ensures Sum(models, usage) == Sum(Without(models, m), usage) + usage[m]
  {
    FirstGone(models);
    assert models == [models[0]] + models[1..];
    if models[0] != m {
      SumWithout(models[1..], usage, m);
      assert Without(models, m)[1..] == Without(models[1..], m);
    }
  }

  datatype Use = Use(model: Model, hasPath: bool, base: nat, peak: nat)

  /** Whatever is used in whatever order, the residents stay within the budget after every use. */
  method UseAll(cache: Cache, uses: seq<Use>) returns (ghost levels: seq<nat>)
    requires cache.Valid() && cache.Used() <= cache.budget && forall u | u in uses :: u.base <= u.peak
    modifies cache
    ensures cache.Valid() && |levels| == |uses| + 1 && levels[0] == old(cache.Used()) && levels[|uses|] == cache.Used()
    ensures forall i | 0 <= i < |levels| :: levels[i] <= cache.budget
  {
    levels := [cache.Used()];
    for i := 0 to |uses|
      invariant cache.Valid() && |levels| == i + 1
      invariant levels[0] == old(cache.Used()) && levels[i] == cache.Used()
      invariant forall j | 0 <= j <= i :: levels[j] <= cache.budget
    {
      assert uses[i] in uses;
      var _, _ := cache.EnsureInGpu(uses[i].model, uses[i].hasPath, uses[i].base, uses[i].peak);
      levels := levels + [cache.Used()];
    }
  }

  /** A model that fits beside the residents is loaded without evicting any. */
  method LoadFitting(cache: Cache, m: Model, base: nat, peak: nat)
    requires cache.Valid() && m !in cache.gpu && cache.Used() + peak <= cache.budget
    modifies cache
    ensures cache.Valid() && cache.gpu == old(cache.gpu) + [m] && cache.usage == old(cache.usage)[m := base]
    ensures cache.Used() == old(cache.Used()) + base
  {
    hide Distinct, Elements, Sum, Shortest;
    ghost var gpu, usage := cache.gpu, cache.usage;
    var _, k := cache.EnsureInGpu(m, true, base, peak);
    UsedIn(gpu, usage);
    NoVictims(gpu, usage, peak - (cache.budget - Sum(gpu, usage)), k);
    LoadedUsed(gpu, usage, usage, m, base);
  }

  lemma UsedIn(models: seq<Model>, usage: map<Model, nat>)
    requires usage.Keys == Elements(models)
    ensures forall x | x in models :: x in usage
  {
  }

  lemma NoVictims(models: seq<Model>, usage: map<Model, nat>, required: int, k: nat)
    requires (forall m | m in models :: m in usage) && required <= 0 && Shortest(models, usage, required, k)
    ensures k == 0 && models[0..] == models && usage - Elements(models[..0]) == usage
  {
    assert Sum(models[..0], usage) == 0 >= required;
  }

  /** Two residents of size 4 within 10; a second use of the first with peak 10 asks for 14. */
  method HitExceedsBudget() returns (cache: Cache)
    ensures fresh(cache) && cache.Valid() && cache.budget == 10 && cache.gpu == ["b", "a"]
    ensures cache.Others() + 10 > cache.budget
  {
    hide Distinct, Elements, Shortest;
    cache := new Cache(10, {});
    LoadFitting(cache, "a", 4, 4);
    LoadFitting(cache, "b", 4, 4);
    assert cache.gpu == ["a", "b"] && ["a", "b"][1..] == ["b"];
    var error, k := cache.EnsureInGpu("a", true, 4, 10);
  }
}
