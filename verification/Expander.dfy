/** The expander as it runs: a chain of scopes and four tables, updated in place. */
module Expander {
  import opened Wrappers
  import opened Expressions
  import opened Workflows
  import Expansion
  import Checks = ExpansionChecks
  import Sim = Simulation
  import Whole = WholeWorkflow

  /** A chain of bindings, innermost first (class Scope). */
  class Scope {
    const parent: Scope?
    var mapping: map<IoName, NodeIO>
    ghost const Chain: set<Scope>

    ghost predicate Valid()
      reads this, Chain
      decreases Chain
    {
      && this in Chain
      && (parent != null ==> parent in Chain && parent.Chain < Chain && this !in parent.Chain && parent.Valid())
    }

    /** The bindings of the whole chain, inner ones hiding outer ones. */
    ghost function Flat(): Expansion.Scope
      requires Valid()
      reads this, Chain
      decreases Chain
    {
      if parent == null then mapping else parent.Flat() + mapping
    }

    constructor Root()
      ensures Valid() && fresh(this) && Chain == {this} && Flat() == map[]
    {
      parent := null;
      mapping := map[];
      Chain := {this};
    }

    constructor Child(outer: Scope)
      requires outer.Valid()
      ensures Valid() && fresh(this) && Chain == outer.Chain + {this} && parent == outer
      ensures outer.Valid() && Flat() == outer.Flat()
    {
      parent := outer;
      mapping := map[];
      Chain := outer.Chain + {this};
    }

    method Lookup(name: IoName) returns (found: Option<NodeIO>)
      requires Valid()
      ensures found == if name in Flat() then Some(Flat()[name]) else None
    {
      var scope: Scope? := this;
      while scope != null
        invariant scope != null ==> scope.Valid() && scope.Chain <= Chain
        invariant (name in Flat()) == (scope != null && name in scope.Flat())
        invariant scope != null && name in scope.Flat() ==> Flat()[name] == scope.Flat()[name]
        decreases if scope == null then {} else scope.Chain
      {
        if name in scope.mapping {
          return Some(scope.mapping[name]);
        }
        scope := scope.parent;
      }
      return None;
    }

    method Bind(name: IoName, io: NodeIO)
      requires Valid()
      modifies this`mapping
      ensures Valid() && Flat() == old(Flat())[name := io]
      ensures parent != null ==> parent.Valid() && parent.Flat() == old(parent.Flat())
    {
      mapping := mapping[name := io];
    }
  }

  /** A scope after the outputs in `done` have been bound. */
  ghost function Bound(src: Node, clone: Node, done: set<string>, scope: Expansion.Scope): Expansion.Scope {
    Expansion.BindOutputs(src.(outputs := done), clone, scope)
  }

  lemma BoundMore(src: Node, clone: Node, done: set<string>, k: string, scope: Expansion.Scope)
    ensures Bound(src, clone, done + {k}, scope)
              == Bound(src, clone, done, scope)[Output(src.name, k) := NodeIO(Output(clone.name, k), NODE)]
  {
  }

  /** What a method reports and leaves behind, against what the functional form says. */
  ghost predicate Ran<T>(error: Option<Error>, expected: Result<T, Error>, actual: T) {
    match expected
    case Err(e) => error == Some(e)
    case Ok(v) => error.None? && v == actual
  }

  /** A scope after the carries `keys` have been bound, in that order. */
  ghost function Carried(r: Region, current: map<string, NodeIO>, keys: seq<string>, scope: Expansion.Scope)
    : Expansion.Scope
    requires forall k | k in keys :: k in current
  {
    if keys == [] then scope
    else
      var last := keys[|keys| - 1];
      Carried(r, current, keys[..|keys| - 1], scope)[Carry(r.id, last) := current[last]]
  }

  lemma CarriedMore(r: Region, current: map<string, NodeIO>, keys: seq<string>, k: string, scope: Expansion.Scope)
    requires (forall x | x in keys :: x in current) && k in current
    ensures Carried(r, current, keys + [k], scope) == Carried(r, current, keys, scope)[Carry(r.id, k) := current[k]]
  {
    assert (keys + [k])[..|keys|] == keys;
  }

  ghost function Only(current: map<string, NodeIO>, keys: seq<string>): map<string, NodeIO> {
    map k | k in current && k in keys :: current[k]
  }

  /** In whatever order the carries are bound, the scope of the iteration results. */
  lemma {:induction false} CarriedIs(r: Region, current: map<string, NodeIO>, keys: seq<string>, scope: Expansion.Scope)
    requires forall k | k in keys :: k in current
    ensures Carried(r, current, keys, scope) == scope + Expansion.CarryScope(r, Only(current, keys))
  {
    hide Expansion.CarryScope;
    if keys != [] {
      var front, last := keys[..|keys| - 1], keys[|keys| - 1];
      CarriedIs(r, current, front, scope);
      assert keys == front + [last];
      assert Only(current, keys) == Only(current, front)[last := current[last]];
      CarryScopeMore(r, Only(current, front), last, current[last]);
    } else {
      CarryScopeNone(r, Only(current, keys));
    }
  }

  lemma CarryScopeNone(r: Region, none: map<string, NodeIO>)
    requires none == map[]
    ensures Expansion.CarryScope(r, none) == map[]
  {
  }

  lemma CarryScopeMore(r: Region, some: map<string, NodeIO>, k: string, io: NodeIO)
    ensures Expansion.CarryScope(r, some[k := io]) == Expansion.CarryScope(r, some)[Carry(r.id, k) := io]
  {
  }

  lemma CarriedAll(r: Region, i: nat, current: map<string, NodeIO>, keys: seq<string>, scope: Expansion.Scope)
    requires forall k :: k in keys <==> k in current
    ensures Carried(r, current, keys, scope[InductionVar(r.id) := NodeIO(Step(r.id, i), INPUT)])
              == Expansion.IterationScope(r, i, current, scope)
  {
    CarriedIs(r, current, keys, scope[InductionVar(r.id) := NodeIO(Step(r.id, i), INPUT)]);
    assert Only(current, keys) == current;
  }

  /** One element of a body, errors included. */
  lemma ProgramStep(py: Operators, p: Program, inputs: map<string, PyVal>, env: map<string, PyVal>,
                    scope: Expansion.Scope, st: Expansion.State)
    requires p.Cons?
    ensures p.op.NodeOp? ==>
              var clone := Expansion.Clone(p.op.node, scope, st);
              Expansion.ExpandProgram(py, p, inputs, env, scope, st)
              == if clone.Err? then Err(clone.error)
                 else Expansion.ExpandProgram(py, p.rest, inputs, env,
                                              Expansion.BindOutputs(p.op.node, clone.value, scope),
                                              Expansion.Emit(clone.value, st))
    ensures p.op.RegionOp? ==>
              var region := Expansion.ExpandRegion(py, p.op.region, inputs, env, scope, st);
              Expansion.ExpandProgram(py, p, inputs, env, scope, st)
              == if region.Err? then Err(region.error)
                else Expansion.ExpandProgram(py, p.rest, inputs, env, scope, region.value)
  {
  }

  lemma ProgramEnd(py: Operators, inputs: map<string, PyVal>, env: map<string, PyVal>, scope: Expansion.Scope,
                   st: Expansion.State)
    ensures Expansion.ExpandProgram(py, Nil, inputs, env, scope, st) == Ok((scope, st))
  {
  }

  /** One step of the loop, errors included. */
  lemma LoopStep(py: Operators, r: Region, inputs: map<string, PyVal>, env: map<string, PyVal>, scope: Expansion.Scope,
                 current: map<string, NodeIO>, i: nat, count: nat, st: Expansion.State)
    requires r.Loop? && i < count
    ensures var body := Sim.ExpandIteration(py, r, inputs, env, scope, current, i, st);
            Expansion.ExpandLoop(py, r, inputs, env, scope, current, i, count, st)
            == if body.Err? then Err(body.error)
               else Expansion.ExpandLoop(py, r, inputs, env, scope,
                                         Expansion.ResolveAll(r.carryOut, body.value.0, body.value.1.subst),
                                         i + 1, count, body.value.1)
  {
  }

  lemma LoopEnd(py: Operators, r: Region, inputs: map<string, PyVal>, env: map<string, PyVal>, scope: Expansion.Scope,
                current: map<string, NodeIO>, count: nat, st: Expansion.State)
    requires r.Loop?
    ensures Expansion.ExpandLoop(py, r, inputs, env, scope, current, count, count, st) == Ok((current, st))
  {
  }

  lemma LoopRegion(py: Operators, r: Region, inputs: map<string, PyVal>, env: map<string, PyVal>,
                   scope: Expansion.Scope, st: Expansion.State)
    requires r.Loop?
    ensures var count := Expansion.TripCount(py, r.id, r.trip, inputs + env);
            Expansion.ExpandRegion(py, r, inputs, env, scope, st)
            == if count.Err? then Err(count.error)
               else
                 var loop := Expansion.ExpandLoop(py, r, inputs, env, scope,
                                                  Expansion.ResolveAll(r.carryInit, scope, st.subst), 0, count.value,
                                                  st);
                 if loop.Err? then Err(loop.error) else Ok(Expansion.BindResults(r, loop.value.0, loop.value.1))
  {
  }

  /** The tables of one expansion. */
  class Tables {
    const py: Operators
    var subst: map<IoName, NodeIO>
    var injected: map<IoName, int>
    var emitted: seq<Node>
    var minted: nat

    constructor (py: Operators, minted: nat)
      ensures this.py == py && St() == Expansion.State(map[], map[], [], minted)
    {
      this.py := py;
      subst, injected, emitted, this.minted := map[], map[], [], minted;
    }

    function St(): Expansion.State
      reads this
    {
      Expansion.State(subst, injected, emitted, minted)
    }

    /** _resolve on a present reference. */
    method Resolve(io: NodeIO, scope: Scope) returns (resolved: NodeIO)
      requires scope.Valid()
      ensures resolved == Expansion.Resolve(io, scope.Flat(), subst)
    {
      var found := scope.Lookup(io.name);
      if found.Some? { return found.value; }
      if io.name in subst { return subst[io.name]; }
      return io;
    }

    method ResolveAll(ios: map<string, NodeIO>, scope: Scope) returns (resolved: map<string, NodeIO>)
      requires scope.Valid()
      ensures resolved == Expansion.ResolveAll(ios, scope.Flat(), subst)
    {
      resolved := map[];
      var keys := ios.Keys;
      while keys != {}
        invariant keys <= ios.Keys && resolved.Keys == ios.Keys - keys
        invariant forall k | k in resolved :: resolved[k] == Expansion.Resolve(ios[k], scope.Flat(), subst)
        decreases |keys|
      {
        var k :| k in keys;
        var io := Resolve(ios[k], scope);
        resolved, keys := resolved[k := io], keys - {k};
      }
    }

    method ResolveInputs(ins: map<string, Option<NodeIO>>, scope: Scope) returns (resolved: map<string, Option<NodeIO>>)
      requires scope.Valid()
      ensures resolved == Expansion.ResolveInputs(ins, scope.Flat(), subst)
    {
      resolved := map[];
      var keys := ins.Keys;
      while keys != {}
        invariant keys <= ins.Keys && resolved.Keys == ins.Keys - keys
        invariant forall k | k in resolved :: resolved[k] == Expansion.ResolveInputs(ins, scope.Flat(), subst)[k]
        decreases |keys|
      {
        var k :| k in keys;
        var io: Option<NodeIO> := None;
        if ins[k].Some? {
          var found := Resolve(ins[k].value, scope);
          io := Some(found);
        }
        resolved, keys := resolved[k := io], keys - {k};
      }
    }

    /** _clone, and emitting the clone. */
    method CloneAndEmit(n: Node, scope: Scope) returns (clone: Result<Node, Error>)
      requires scope.Valid()
      modifies this
      ensures clone == Expansion.Clone(n, scope.Flat(), old(St()))
      ensures St() == if clone.Ok? then Expansion.Emit(clone.value, old(St())) else old(St())
    {
      var resolved := ResolveInputs(n.inputs, scope);
      if n.declared != n.outputs { return Err(OutputsMismatch(n.op)); }
      var node := Node(Minted(n.op, minted), n.op, n.mode, resolved, n.declared, n.declared);
      emitted, minted := emitted + [node], minted + 1;
      return Ok(node);
    }

    /** The outputs of a body node now name the outputs of its clone. */
    method BindOutputs(src: Node, clone: Node, scope: Scope)
      requires scope.Valid()
      modifies scope`mapping
      ensures scope.Valid() && scope.Flat() == Expansion.BindOutputs(src, clone, old(scope.Flat()))
      ensures scope.parent != null ==> scope.parent.Valid() && scope.parent.Flat() == old(scope.parent.Flat())
    {
      var keys := src.outputs;
      while keys != {}
        invariant keys <= src.outputs && scope.Valid()
        invariant scope.Flat() == Bound(src, clone, src.outputs - keys, old(scope.Flat()))
        invariant scope.parent != null ==> scope.parent.Valid() && scope.parent.Flat() == old(scope.parent.Flat())
        decreases |keys|
      {
        var k :| k in keys;
        scope.Bind(Output(src.name, k), NodeIO(Output(clone.name, k), NODE));
        BoundMore(src, clone, src.outputs - keys, k, old(scope.Flat()));
        assert src.outputs - (keys - {k}) == src.outputs - keys + {k};
        keys := keys - {k};
      }
      assert src.outputs - keys == src.outputs;
    }

    /** _expand_program: clones nodes, expands regions, in order. */
    method ExpandProgram(p: Program, inputs: map<string, PyVal>, env: map<string, PyVal>, scope: Scope)
      returns (error: Option<Error>)
      requires scope.Valid()
      modifies this, scope`mapping
      ensures scope.Valid()
      ensures Ran(error, Expansion.ExpandProgram(py, p, inputs, env, old(scope.Flat()), old(St())),
                  (scope.Flat(), St()))
      decreases p, 0
    {
      hide Expansion.ExpandProgram, Expansion.ExpandRegion, Expansion.Clone, Expansion.Emit, Expansion.BindOutputs;
      var rest := p;
      while rest.Cons?
        invariant scope.Valid() && (rest == p || rest < p)
        invariant Expansion.ExpandProgram(py, p, inputs, env, old(scope.Flat()), old(St()))
                  == Expansion.ExpandProgram(py, rest, inputs, env, scope.Flat(), St())
        decreases rest
      {
        ProgramStep(py, rest, inputs, env, scope.Flat(), St());
        match rest.op {
          case NodeOp(n) =>
            var clone := CloneAndEmit(n, scope);
            if clone.Err? { return Some(clone.error); }
            BindOutputs(n, clone.value, scope);
          case RegionOp(r) =>
            error := ExpandRegion(r, inputs, env, scope);
            if error.Some? { return; }
        }
        rest := rest.rest;
      }
      ProgramEnd(py, inputs, env, scope.Flat(), St());
      return None;
    }

    method ExpandRegion(r: Region, inputs: map<string, PyVal>, env: map<string, PyVal>, scope: Scope)
      returns (error: Option<Error>)
      requires scope.Valid()
      modifies this
      ensures Ran(error, Expansion.ExpandRegion(py, r, inputs, env, scope.Flat(), old(St())), St())
      decreases r, 1
    {
      match r
      case Loop(_, _, _, _, _) =>
        error := ExpandLoop(r, inputs, env, scope);
      case Cond(_, _, _, _, _) =>
        error := ExpandCond(r, inputs, env, scope);
    }

    /** _expand_cond: one branch, in a scope of its own. */
    method ExpandCond(r: Region, inputs: map<string, PyVal>, env: map<string, PyVal>, scope: Scope)
      returns (error: Option<Error>)
      requires r.Cond? && scope.Valid()
      modifies this
      ensures Ran(error, Expansion.ExpandRegion(py, r, inputs, env, scope.Flat(), old(St())), St())
      decreases r, 0
    {
      var v := Eval(py, r.predicate_, inputs + env);
      if v.Err? { return Some(v.error); }
      var branch := if Truthy(v.value) then Some(r.then_) else r.else_;
      if branch.None? { return None; }
      error := ExpandBranch(r, branch.value, inputs, env, scope);
    }

    method ExpandBranch(r: Region, b: Branch, inputs: map<string, PyVal>, env: map<string, PyVal>, scope: Scope)
      returns (error: Option<Error>)
      requires scope.Valid()
      modifies this
      ensures Ran(error, Expansion.ExpandBranch(py, r, b, inputs, env, scope.Flat(), old(St())), St())
      decreases b
    {
      hide Expansion.ExpandProgram, Expansion.ResolveAll, Expansion.BindResults;
      var inner := new Scope.Child(scope);
      error := ExpandProgram(b.body, inputs, env, inner);
      if error.Some? { return; }
      var results := ResolveAll(b.results, inner);
      Publish(r, results);
    }

    /** Later readers of the region's results find these references. */
    method Publish(r: Region, results: map<string, NodeIO>)
      modifies this`subst
      ensures St() == Expansion.BindResults(r, results, old(St()))
    {
      subst := subst + map k | k in results :: ResultOf(r.id, k) := results[k];
    }

    /** _expand_loop: iterations in turn, each in a child scope, carrying references along. */
    method ExpandLoop(r: Region, inputs: map<string, PyVal>, env: map<string, PyVal>, scope: Scope)
      returns (error: Option<Error>)
      requires r.Loop? && scope.Valid()
      modifies this
      ensures Ran(error, Expansion.ExpandRegion(py, r, inputs, env, scope.Flat(), old(St())), St())
      decreases r, 0
    {
      hide Expansion.ExpandLoop, Expansion.ExpandProgram, Expansion.ExpandRegion, Expansion.ResolveAll,
           Expansion.BindResults;
      ghost var flat, st := scope.Flat(), St();
      var count := Expansion.TripCount(py, r.id, r.trip, inputs + env);
      LoopRegion(py, r, inputs, env, flat, st);
      if count.Err? { return Some(count.error); }
      var initial := ResolveAll(r.carryInit, scope);
      var current;
      error, current := Iterate(r, inputs, env, scope, initial, count.value);
      if error.Some? { return; }
      ghost var looped := St();
      assert Expansion.ExpandLoop(py, r, inputs, env, flat, initial, 0, count.value, st) == Ok((current, looped));
      Publish(r, current);
      assert St() == Expansion.BindResults(r, current, looped);
      assert scope.Flat() == flat;
    }

    method Iterate(r: Region, inputs: map<string, PyVal>, env: map<string, PyVal>, scope: Scope,
                   initial: map<string, NodeIO>, count: nat)
      returns (error: Option<Error>, current: map<string, NodeIO>)
      requires r.Loop? && scope.Valid()
      modifies this
      ensures Ran(error, Expansion.ExpandLoop(py, r, inputs, env, scope.Flat(), initial, 0, count, old(St())),
                  (current, St()))
      decreases r.body, 2, 1
    {
      hide Expansion.ExpandProgram, Expansion.ExpandLoop;
      current := initial;
      ghost var flat := scope.Flat();
      for i := 0 to count
        invariant scope.Valid() && scope.Flat() == flat
        invariant Expansion.ExpandLoop(py, r, inputs, env, flat, initial, 0, count, old(St()))
                  == Expansion.ExpandLoop(py, r, inputs, env, flat, current, i, count, St())
      {
        error, current := Advance(r, inputs, env, scope, current, i, count);
        if error.Some? { return; }
      }
      LoopEnd(py, r, inputs, env, flat, current, count, St());
      return None, current;
    }

    method Advance(r: Region, inputs: map<string, PyVal>, env: map<string, PyVal>, scope: Scope,
                   current: map<string, NodeIO>, i: nat, ghost count: nat)
      returns (error: Option<Error>, carry: map<string, NodeIO>)
      requires r.Loop? && i < count && scope.Valid()
      modifies this
      ensures var loop := Expansion.ExpandLoop(py, r, inputs, env, old(scope.Flat()), current, i, count, old(St()));
              loop == if error.Some? then Err(error.value)
                      else Expansion.ExpandLoop(py, r, inputs, env, old(scope.Flat()), carry, i + 1, count, St())
      decreases r.body, 2, 0
    {
      hide Expansion.ExpandLoop, Expansion.ExpandProgram, Expansion.ResolveAll, Sim.ExpandIteration;
      LoopStep(py, r, inputs, env, scope.Flat(), current, i, count, St());
      error, carry := ExpandIteration(r, inputs, env, scope, current, i);
    }

    method ExpandIteration(r: Region, inputs: map<string, PyVal>, env: map<string, PyVal>, scope: Scope,
                           current: map<string, NodeIO>, i: nat)
      returns (error: Option<Error>, carry: map<string, NodeIO>)
      requires r.Loop? && scope.Valid()
      modifies this
      ensures var body := Sim.ExpandIteration(py, r, inputs, env, scope.Flat(), current, i, old(St()));
              && error == (if body.Err? then Some(body.error) else None)
              && (body.Ok? ==>
                  St() == body.value.1 && carry == Expansion.ResolveAll(r.carryOut, body.value.0, body.value.1.subst))
      decreases r.body, 1
    {
      hide Expansion.ExpandProgram, Expansion.IterationScope, Expansion.ResolveAll;
      carry := current;
      var inner := IterationScope(r, i, current, scope);
      injected := injected[Step(r.id, i) := i];
      assert St() == Expansion.Inject(r, i, old(St()));
      error := ExpandProgram(r.body, inputs, env[r.id := PyInt(i)], inner);
      if error.Some? { return; }
      carry := ResolveAll(r.carryOut, inner);
    }

    /** A child scope with the counter and the carried references. */
    method IterationScope(r: Region, i: nat, current: map<string, NodeIO>, scope: Scope) returns (inner: Scope)
      requires r.Loop? && scope.Valid()
      ensures fresh(inner) && inner.Valid() && inner.Flat() == Expansion.IterationScope(r, i, current, scope.Flat())
    {
      inner := new Scope.Child(scope);
      inner.Bind(InductionVar(r.id), NodeIO(Step(r.id, i), INPUT));
      ghost var order := BindCarry(r, current, inner);
      CarriedAll(r, i, current, order, scope.Flat());
    }

    method BindCarry(r: Region, current: map<string, NodeIO>, inner: Scope) returns (ghost order: seq<string>)
      requires inner.Valid()
      modifies inner`mapping
      ensures inner.Valid() && (forall k :: k in order <==> k in current)
      ensures inner.Flat() == Carried(r, current, order, old(inner.Flat()))
    {
      var keys := current.Keys;
      order := [];
      while keys != {}
        invariant keys <= current.Keys && inner.Valid() && (forall k :: k in order <==> k in current && k !in keys)
        invariant inner.Flat() == Carried(r, current, order, old(inner.Flat()))
        decreases |keys|
      {
        var k :| k in keys;
        inner.Bind(Carry(r.id, k), current[k]);
        CarriedMore(r, current, order, k, old(inner.Flat()));
        keys, order := keys - {k}, order + [k];
      }
    }

    /** Pass 1: plain nodes are emitted under their own names. */
    method EmitPlain(nodes: seq<Node>)
      modifies this`emitted
      ensures emitted == old(emitted) + nodes
    {
      for i := 0 to |nodes|
        invariant emitted == old(emitted) + nodes[..i]
      {
        emitted := emitted + [nodes[i]];
        assert nodes[..i + 1] == nodes[..i] + [nodes[i]];
      }
      assert nodes[..|nodes|] == nodes;
    }

    /** Pass 2: regions in authoring order, from an empty outermost scope. */
    method ExpandRegions(regions: seq<Region>, inputs: map<string, PyVal>) returns (error: Option<Error>)
      modifies this
      ensures Ran(error, Expansion.ExpandRegions(py, regions, inputs, old(St())), St())
    {
      hide Expansion.ExpandRegion;
      var root := new Scope.Root();
      for i := 0 to |regions|
        invariant root.Valid() && root.Flat() == map[]
        invariant Expansion.ExpandRegions(py, regions, inputs, old(St()))
                    == Expansion.ExpandRegions(py, regions[i..], inputs, St())
      {
        assert regions[i..][0] == regions[i] && regions[i..][1..] == regions[i + 1..];
        error := ExpandRegion(regions[i], inputs, map[], root);
        if error.Some? { return; }
      }
      return None;
    }

    /** Pass 3: inputs that name a region result are pointed at what replaced it. */
    method PatchNode(n: Node) returns (patched: Node)
      ensures patched == Expansion.Patch(n, subst)
    {
      var ins := n.inputs;
      var keys := ins.Keys;
      while keys != {}
        invariant keys <= n.inputs.Keys == ins.Keys
        invariant forall k | k in ins ::
                    ins[k] == if k in keys then n.inputs[k] else Expansion.ResolveInputs(n.inputs, map[], subst)[k]
        decreases |keys|
      {
        var k :| k in keys;
        if ins[k].Some? && ins[k].value.name in subst {
          ins := ins[k := Some(subst[ins[k].value.name])];
        }
        keys := keys - {k};
      }
      patched := n.(inputs := ins);
    }

    method PatchEmitted()
      modifies this`emitted
      ensures emitted == Expansion.PatchAll(old(emitted), subst)
    {
      for i := 0 to |emitted|
        invariant |emitted| == |old(emitted)|
        invariant forall j | 0 <= j < |emitted| ::
                    emitted[j] == if j < i then Expansion.Patch(old(emitted)[j], subst) else old(emitted)[j]
      {
        var patched := PatchNode(emitted[i]);
        emitted := emitted[i := patched];
      }
    }

    /** Pass 4: outputs move to the names of their producers. */
    method RemapOutputs(registered: seq<(IoName, string)>) returns (outputs: map<IoName, string>)
      ensures outputs == Expansion.RemapOutputs(registered, subst)
    {
      outputs := map[];
      for i := 0 to |registered|
        invariant outputs == Expansion.RemapOutputs(registered[..i], subst)
      {
        var key := registered[i].0;
        outputs := outputs[(if key in subst then subst[key].name else key) := registered[i].1];
        assert registered[..i + 1][..i] == registered[..i];
      }
      assert registered[..|registered|] == registered;
    }
  }

  datatype Failure = Expanding(error: Error) | Malformed(check: Checks.CheckError)

  /** expand_workflow_pure: expands, then refuses what its final check refuses. */
  method ExpandWorkflow(py: Operators, w: Workflow, inputs: map<string, PyVal>, minted: nat)
    returns (expanded: Result<Expansion.Expanded, Failure>)
    ensures var g := Expansion.Expand(py, w, inputs, minted);
            && (g.Err? ==> expanded == Err(Expanding(g.error)))
            && (g.Ok? && Checks.Sound(g.value, w, inputs) ==> expanded == Ok(g.value))
            && (g.Ok? && !Checks.Sound(g.value, w, inputs) ==> expanded.Err? && expanded.error.Malformed?)
    ensures forall items | Whole.WellScoped(w, items, inputs) :: expanded.Ok? || expanded.error.Expanding?
  {
    hide Checks.Sound, Expansion.ExpandRegions, Whole.WellScoped, Expansion.PatchAll, Expansion.RemapOutputs;
    var tables := new Tables(py, minted);
    tables.EmitPlain(w.nodes);
    assert tables.St() == Expansion.State(map[], map[], w.nodes, minted);
    var error := tables.ExpandRegions(w.regions, inputs);
    if error.Some? { return Err(Expanding(error.value)); }
    tables.PatchEmitted();
    var outputs := tables.RemapOutputs(w.outputs);
    var g := Expansion.Expanded(tables.emitted, outputs, tables.injected, tables.subst);
    assert Expansion.Expand(py, w, inputs, minted) == Ok(g);
    forall items | Whole.WellScoped(w, items, inputs) ensures Checks.Sound(g, w, inputs) {
      Checks.ExpansionIsSound(py, w, items, inputs, minted, g);
    }
    var check := Checks.CheckInvariants(g, w, inputs);
    return if check.None? then Ok(g) else Err(Malformed(check.value));
  }
}
