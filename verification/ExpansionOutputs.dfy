/** Registered outputs are keyed by their producer after expansion; exactly when none of them is lost. */
module ExpansionOutputs {
  import opened Wrappers
  import opened Expressions
  import opened Workflows
  import opened Expansion
  import opened Simulation
  import opened WholeWorkflow
  import opened Origins
  import opened Interpreter

  /** Nothing is made up: each remapped output is one of the registered ones, and each of those has a producer entry. */
  lemma {:induction false} RemapOrigins(outputs: seq<(IoName, string)>, subst: map<IoName, NodeIO>)
    ensures forall o | o in outputs :: OutputTarget(o.0, subst) in RemapOutputs(outputs, subst)
    ensures forall t | t in RemapOutputs(outputs, subst) ::
              exists o :: o in outputs && OutputTarget(o.0, subst) == t && o.1 == RemapOutputs(outputs, subst)[t]
  {
    if outputs != [] {
      var front, last := outputs[..|outputs| - 1], outputs[|outputs| - 1];
      RemapOrigins(front, subst);
      assert outputs == front + [last];
      assert RemapOutputs(outputs, subst) == RemapOutputs(front, subst)[OutputTarget(last.0, subst) := last.1];
      forall t | t in RemapOutputs(outputs, subst)
        ensures exists o :: o in outputs && OutputTarget(o.0, subst) == t && o.1 == RemapOutputs(outputs, subst)[t]
      {
        if t != OutputTarget(last.0, subst) {
          var o :| o in front && OutputTarget(o.0, subst) == t && o.1 == RemapOutputs(front, subst)[t];
          assert o in outputs;
        } else {
          assert last in outputs;
        }
      }
    }
  }

  /** Every registered output is still there under its producer's name, with its own label. */
  ghost predicate AllKept(w: Workflow, g: Expanded) {
    forall o | o in w.outputs :: OutputTarget(o.0, g.subst) in g.outputs && g.outputs[OutputTarget(o.0, g.subst)] == o.1
  }

  /** Outputs that come from one place in the direct run carry one label. */
  ghost predicate OneLabelPerOrigin(outputs: seq<(IoName, string)>, origins: Store<Origin>) {
    forall o, o' | o in outputs && o' in outputs && o.0 in origins && o'.0 in origins
        && origins[o.0] == origins[o'.0] :: o.1 == o'.1
  }

  /**
   * No registered output is lost if and only if outputs of one origin, as the workflow and the
   * request determine it, carry one label.
   */
  lemma OutputsKeptExactly(py: Operators, w: Workflow, items: seq<Item>, inputs: map<string, PyVal>, minted: nat,
                           g: Expanded)
    requires WellScoped(w, items, inputs) && Expand(py, w, inputs, minted) == Ok(g)
    ensures OriginsOf(py, items, inputs).Ok?
    ensures AllKept(w, g) <==> OneLabelPerOrigin(w.outputs, OriginsOf(py, items, inputs).value)
  {
    hide WellScoped;
    OneTargetOneOrigin(py, w, items, inputs, minted, g);
    RemapOrigins(w.outputs, g.subst);
    OutputsDefined(py, w, items, inputs);
    var origins := OriginsOf(py, items, inputs).value;
    if OneLabelPerOrigin(w.outputs, origins) {
      forall o | o in w.outputs ensures g.outputs[OutputTarget(o.0, g.subst)] == o.1 {
        var o' :| o' in w.outputs && OutputTarget(o'.0, g.subst) == OutputTarget(o.0, g.subst)
            && o'.1 == g.outputs[OutputTarget(o.0, g.subst)];
      }
    }
  }

  lemma OutputsDefined(py: Operators, w: Workflow, items: seq<Item>, inputs: map<string, PyVal>)
    requires WellScoped(w, items, inputs)
    ensures forall o | o in w.outputs :: o.0 in ItemsDefined(items, RequestNames(inputs))
  {
  }

  // ---------------------------------------------------------------- a guard that suffices

  /** Outputs of the nodes that stand in a body itself, not in a region inside it. */
  function OwnOutputs(p: Program): set<IoName> {
    match p
    case Nil => {}
    case Cons(NodeOp(n), rest) => OutputNames(n) + OwnOutputs(rest)
    case Cons(RegionOp(_), rest) => OwnOutputs(rest)
  }

  /** What a region's result `k` names in the body that determines it: a loop's own, if it runs, or the branch taken. */
  function Surfaced(py: Operators, r: Region, inputs: map<string, PyVal>, k: string): Option<IoName> {
    match r
    case Loop(id, trip, _, carryOut, body) =>
      var count := TripCount(py, id, trip, inputs);
      if count.Ok? && count.value >= 1 && k in carryOut && carryOut[k].name in OwnOutputs(body)
      then Some(carryOut[k].name) else None
    case Cond(_, predicate_, _, then_, else_) =>
      var v := Eval(py, predicate_, inputs);
      if v.Err? then None
      else if Truthy(v.value) then SurfacedBy(then_, k)
      else if else_.None? then None
      else SurfacedBy(else_.value, k)
  }

  function SurfacedBy(b: Branch, k: string): Option<IoName> {
    if k in b.results && b.results[k].name in OwnOutputs(b.body) then Some(b.results[k].name) else None
  }

  /**
   * Loops with registered results run at least once, and registered results name outputs of nodes
   * of their own bodies, different ones for different results of a region.
   */
  ghost predicate Guarded(py: Operators, w: Workflow, inputs: map<string, PyVal>) {
    && (forall o, r | o in w.outputs && r in w.regions && o.0.ResultOf?
        && o.0.region == r.id :: Surfaced(py, r, inputs, o.0.key).Some?)
    && forall o, o', r | o in w.outputs && o' in w.outputs && r in w.regions && o.0.ResultOf? && o'.0.ResultOf?
                         && o.0.region == r.id == o'.0.region && o.0 != o'.0 ::
         Surfaced(py, r, inputs, o.0.key) != Surfaced(py, r, inputs, o'.0.key)
  }

  /** A place among the items, not inside one. */
  predicate OnTop(x: Place) {
    x.First? || (x.After? && OnTop(x.before))
  }

  /** The item a place lies in. */
  function ItemOf(x: Place): Place {
    if OnTop(x) then x else ItemOf(Outer(x))
  }

  lemma {:induction false} InsideItem(x: Place, child: Place)
    requires From(x, child) && (child.Turn? || child.Taken?) && OnTop(Outer(child))
    ensures !OnTop(x) && ItemOf(x) == Outer(child)
  {
    if x != child { InsideItem(Outer(x), child); }
  }

  /** A body's own outputs come from its nodes; other names keep their origins, results of inner regions aside. */
  lemma {:induction false} OwnTraced(py: Operators, p: Program, inputs: map<string, PyVal>, rho: Store<Origin>,
                                     at: Place)
    requires TraceProgram(py, p, inputs, rho, at).Ok?
    ensures var rho' := TraceProgram(py, p, inputs, rho, at).value;
            && (forall x | x in OwnOutputs(p) :: x in rho' && MadeAs(rho'[x], x) && From(rho'[x].place, at))
            && (forall x: IoName | x in rho && x !in OwnOutputs(p) && !x.ResultOf? :: x in rho' && rho'[x] == rho[x])
  {
    match p
    case Nil =>
    case Cons(NodeOp(n), rest) =>
      var rho1 := RunNode(MadeBy(n, at), n, rho);
      OwnTraced(py, rest, inputs, rho1, After(at));
      assert From(After(at), at) && From(at, at);
      FurtherOn(at);
      forall x | x in OutputNames(n)
        ensures x in rho1 && rho1[x] == Made(n.name, at, x.key) && x.Output? && x.node == n.name
      {
      }
    case Cons(RegionOp(r), rest) =>
      var results := TraceRegion(py, r, inputs, rho, at).value;
      OwnTraced(py, rest, inputs, rho + Named(r, results), After(at));
      FurtherOn(at);
  }

  lemma FurtherOn(at: Place)
    ensures forall x | From(x, After(at)) :: From(x, at)
  {
    assert From(at, at) && From(After(at), at);
    forall x | From(x, After(at)) ensures From(x, at) { FromTrans(x, After(at), at); }
  }

  /** The origin is that output of that node, wherever it ran. */
  predicate MadeAs(origin: Origin, x: IoName) {
    x.Output? && origin.Made? && origin.node == x.node && origin.key == x.key
  }

  /** What is left of a loop ends with a turn of its body. */
  lemma TurnUnfolds(py: Operators, r: Region, inputs: map<string, PyVal>, rho: Store<Origin>,
                    current: map<string, Origin>, i: nat, count: nat, at: Place)
    requires r.Loop? && i < count && TraceLoop(py, r, inputs, rho, current, i, count, at).Ok?
    ensures var body := TraceProgram(py, r.body, inputs, IterationStore(Counting(r.id), r, i, current, rho),
                                     Turn(at, i));
            && body.Ok?
            && var current1 := ReadAll(Counting(r.id), r.carryOut, body.value);
            && TraceLoop(py, r, inputs, rho, current, i, count, at)
              == TraceLoop(py, r, inputs, rho, current1, i + 1, count, at)
            && (i + 1 == count ==> TraceLoop(py, r, inputs, rho, current, i, count, at) == Ok(current1))
  {
    hide TraceProgram, IterationStore, ReadAll;
  }

  lemma {:induction false} LastTurn(py: Operators, r: Region, inputs: map<string, PyVal>, rho: Store<Origin>,
                                    current: map<string, Origin>, i: nat, count: nat, at: Place, k: string)
    requires r.Loop? && i < count && TraceLoop(py, r, inputs, rho, current, i, count, at).Ok?
    requires k in r.carryOut && r.carryOut[k].name in OwnOutputs(r.body)
    ensures var results := TraceLoop(py, r, inputs, rho, current, i, count, at).value;
            && k in results && MadeAs(results[k], r.carryOut[k].name)
            && exists child: Place :: child.Turn? && Outer(child) == at && From(results[k].place, child)
    decreases count - i
  {
    hide TraceProgram, TraceLoop, IterationStore, OwnOutputs;
    var rho0 := IterationStore(Counting(r.id), r, i, current, rho);
    TurnUnfolds(py, r, inputs, rho, current, i, count, at);
    OwnTraced(py, r.body, inputs, rho0, Turn(at, i));
    var rho' := TraceProgram(py, r.body, inputs, rho0, Turn(at, i)).value;
    var current1 := ReadAll(Counting(r.id), r.carryOut, rho');
    if i + 1 < count {
      LastTurn(py, r, inputs, rho, current1, i + 1, count, at, k);
    } else {
      assert Outer(Turn(at, i)) == at && From(current1[k].place, Turn(at, i));
    }
  }

  /** A surfaced result comes from the node it names, inside the region. */
  lemma ResultTraced(py: Operators, r: Region, inputs: map<string, PyVal>, rho: Store<Origin>, at: Place, k: string)
    requires TraceRegion(py, r, inputs, rho, at).Ok? && OnTop(at) && Surfaced(py, r, inputs, k).Some?
    ensures var results := TraceRegion(py, r, inputs, rho, at).value;
            && k in results && MadeAs(results[k], Surfaced(py, r, inputs, k).value)
            && !OnTop(results[k].place) && ItemOf(results[k].place) == at
  {
    hide TraceProgram;
    match r
    case Loop(id, trip, carryInit, _, _) =>
      var count := TripCount(py, id, trip, inputs).value;
      var current := ReadAll(Counting(id), carryInit, rho);
      LastTurn(py, r, inputs, rho, current, 0, count, at, k);
      var results := TraceLoop(py, r, inputs, rho, current, 0, count, at).value;
      var child: Place :| child.Turn? && Outer(child) == at && From(results[k].place, child);
      InsideItem(results[k].place, child);
    case Cond(_, predicate_, _, then_, else_) =>
      var b := if Truthy(Eval(py, predicate_, inputs).value) then then_ else else_.value;
      var rho' := TraceProgram(py, b.body, inputs, rho, Taken(at)).value;
      OwnTraced(py, b.body, inputs, rho, Taken(at));
      var x := b.results[k].name;
      InsideItem(rho'[x].place, Taken(at));
  }

  /** Names the items do not define keep their origins. */
  lemma {:induction false} ItemsKeep(py: Operators, items: seq<Item>, inputs: map<string, PyVal>, rho: Store<Origin>,
                                     at: Place, x: IoName)
    requires TraceItems(py, items, inputs, rho, at).Ok? && x in rho
    requires x.Output? ==> x.node !in NamesOf(PlainsOf(items))
    requires x.ResultOf? ==> x.region !in IdsOfItems(items)
    ensures var rho' := TraceItems(py, items, inputs, rho, at).value; x in rho' && rho'[x] == rho[x]
  {
    if items != [] {
      match items[0]
      case Plain(n) =>
        assert PlainsOf(items) == [n] + PlainsOf(items[1..]);
        assert n in PlainsOf(items);
        assert NamesOf(PlainsOf(items[1..])) <= NamesOf(PlainsOf(items));
        ItemsKeep(py, items[1..], inputs, RunNode(MadeBy(n, at), n, rho), After(at), x);
      case Reg(r) =>
        assert PlainsOf(items) == PlainsOf(items[1..]);
        assert r.id in IdsOfRegion(r);
        var results := TraceRegion(py, r, inputs, rho, at).value;
        ItemsKeep(py, items[1..], inputs, rho + Named(r, results), After(at), x);
    }
  }

  /** Where a region stands among the items. */
  function PlaceOf(items: seq<Item>, id: string, at: Place): Place {
    if items == [] || (items[0].Reg? && items[0].region.id == id) then at else PlaceOf(items[1..], id, After(at))
  }

  lemma {:induction false} PlacesFollow(items: seq<Item>, id: string, at: Place)
    ensures From(PlaceOf(items, id, at), at) && (OnTop(at) ==> OnTop(PlaceOf(items, id, at)))
  {
    assert From(at, at);
    if !(items == [] || (items[0].Reg? && items[0].region.id == id)) {
      PlacesFollow(items[1..], id, After(at));
      FurtherOn(at);
    }
  }

  lemma {:induction false} PlacesDiffer(items: seq<Item>, id: string, id': string, at: Place)
    requires id != id' && (exists r :: r in RegionsOf(items) && r.id == id)
               && exists r :: r in RegionsOf(items) && r.id == id'
    ensures PlaceOf(items, id, at) != PlaceOf(items, id', at)
  {
    if items[0].Plain? {
      assert RegionsOf(items) == RegionsOf(items[1..]);
      PlacesDiffer(items[1..], id, id', After(at));
    } else {
      assert RegionsOf(items) == [items[0].region] + RegionsOf(items[1..]);
      if items[0].region.id == id {
        PlacesFollow(items[1..], id', After(at));
        FromDeeper(PlaceOf(items[1..], id', After(at)), After(at));
      } else if items[0].region.id == id' {
        PlacesFollow(items[1..], id, After(at));
        FromDeeper(PlaceOf(items[1..], id, After(at)), After(at));
      } else {
        PlacesDiffer(items[1..], id, id', After(at));
      }
    }
  }

  /** Where each name of a workflow comes from, as far as its form tells. */
  ghost predicate Placed(py: Operators, items: seq<Item>, inputs: map<string, PyVal>, at: Place, x: IoName,
                         origin: Origin)
  {
    && (x.Output? ==> MadeAs(origin, x) && OnTop(origin.place))
    && forall r | r in RegionsOf(items) && x.ResultOf? && x.region == r.id && Surfaced(py, r, inputs, x.key).Some? ::
         MadeAs(origin, Surfaced(py, r, inputs, x.key).value) && !OnTop(origin.place)
           && ItemOf(origin.place) == PlaceOf(items, r.id, at)
  }

  /** Outputs of plain nodes come from them, surfaced results from inside their region. */
  lemma {:induction false} ItemsPlaced(py: Operators, items: seq<Item>, inputs: map<string, PyVal>, rho: Store<Origin>,
                                       at: Place,
                                       defined: set<IoName>, ids: set<string>, x: IoName)
    requires ItemsScoped(items, defined, ids) && TraceItems(py, items, inputs, rho, at).Ok? && OnTop(at)
    requires x.Output? ==> exists n :: n in PlainsOf(items) && x in OutputNames(n)
    requires x.ResultOf? ==>
               exists r :: r in RegionsOf(items) && x.region == r.id && Surfaced(py, r, inputs, x.key).Some?
    requires x.Output? || x.ResultOf?
    ensures var rho' := TraceItems(py, items, inputs, rho, at).value;
            x in rho' && Placed(py, items, inputs, at, x, rho'[x])
    decreases |items|
  {
    if items == [] {
    } else if items[0].Plain? {
      PlainPlaced(py, items, inputs, rho, at, defined, ids, x);
    } else {
      RegionPlaced(py, items, inputs, rho, at, defined, ids, x);
    }
  }

  lemma {:induction false} PlainPlaced(py: Operators, items: seq<Item>, inputs: map<string, PyVal>, rho: Store<Origin>,
                                       at: Place,
                                       defined: set<IoName>, ids: set<string>, x: IoName)
    requires items != [] && items[0].Plain?
    requires ItemsScoped(items, defined, ids) && TraceItems(py, items, inputs, rho, at).Ok? && OnTop(at)
    requires x.Output? ==> exists n :: n in PlainsOf(items) && x in OutputNames(n)
    requires x.ResultOf? ==>
               exists r :: r in RegionsOf(items) && x.region == r.id && Surfaced(py, r, inputs, x.key).Some?
    requires x.Output? || x.ResultOf?
    ensures var rho' := TraceItems(py, items, inputs, rho, at).value;
            x in rho' && Placed(py, items, inputs, at, x, rho'[x])
    decreases |items|, 0
  {
    var n := items[0].node;
    assert PlainsOf(items) == [n] + PlainsOf(items[1..]);
    assert RegionsOf(items) == RegionsOf(items[1..]);
    var rho1 := RunNode(MadeBy(n, at), n, rho);
    if x.Output? && x in OutputNames(n) {
      assert rho1[x] == Made(n.name, at, x.key);
      ItemsKeep(py, items[1..], inputs, rho1, After(at), x);
    } else {
      ItemsPlaced(py, items[1..], inputs, rho1, After(at), defined + OutputNames(n), ids, x);
    }
  }

  lemma {:induction false} RegionPlaced(py: Operators, items: seq<Item>, inputs: map<string, PyVal>, rho: Store<Origin>,
                                        at: Place,
                                        defined: set<IoName>, ids: set<string>, x: IoName)
    requires items != [] && items[0].Reg?
    requires ItemsScoped(items, defined, ids) && TraceItems(py, items, inputs, rho, at).Ok? && OnTop(at)
    requires x.Output? ==> exists n :: n in PlainsOf(items) && x in OutputNames(n)
    requires x.ResultOf? ==>
               exists r :: r in RegionsOf(items) && x.region == r.id && Surfaced(py, r, inputs, x.key).Some?
    requires x.Output? || x.ResultOf?
    ensures var rho' := TraceItems(py, items, inputs, rho, at).value;
            x in rho' && Placed(py, items, inputs, at, x, rho'[x])
    decreases |items|, 0
  {
    hide RegionScoped, Surfaced;
    var r := items[0].region;
    assert PlainsOf(items) == PlainsOf(items[1..]);
    assert RegionsOf(items) == [r] + RegionsOf(items[1..]);
    RegionIds(items[1..]);
    assert r.id in IdsOfRegion(r);
    var results := TraceRegion(py, r, inputs, rho, at).value;
    var rho1 := rho + Named(r, results);
    if x.ResultOf? && x.region == r.id {
      ResultTraced(py, r, inputs, rho, at, x.key);
      assert rho1[x] == results[x.key];
      ItemsKeep(py, items[1..], inputs, rho1, After(at), x);
    } else {
      ItemsPlaced(py, items[1..], inputs, rho1, After(at), defined + ResultNames(r), ids, x);
    }
  }

  lemma {:induction false} RegionIds(items: seq<Item>)
    ensures forall r | r in RegionsOf(items) :: r.id in IdsOfItems(items)
  {
    if items != [] { RegionIds(items[1..]); }
  }

  /** What a workflow defines besides the request's inputs. */
  lemma {:induction false} DefinedNames(items: seq<Item>, defined: set<IoName>, x: IoName)
    requires x in ItemsDefined(items, defined) && x !in defined
    ensures (x.Output? && exists n :: n in PlainsOf(items) && x in OutputNames(n))
            || (x.ResultOf? && exists r :: r in RegionsOf(items) && x in ResultNames(r))
  {
    if items != [] {
      if items[0].Plain? {
        var n := items[0].node;
        assert PlainsOf(items) == [n] + PlainsOf(items[1..]);
        assert RegionsOf(items) == RegionsOf(items[1..]);
        if x !in OutputNames(n) { DefinedNames(items[1..], defined + OutputNames(n), x); }
      } else {
        var r := items[0].region;
        assert PlainsOf(items) == PlainsOf(items[1..]);
        assert RegionsOf(items) == [r] + RegionsOf(items[1..]);
        if x !in ResultNames(r) { DefinedNames(items[1..], defined + ResultNames(r), x); }
      }
    }
  }

  /** Registered names are request inputs, outputs of plain nodes, or surfaced results. */
  ghost predicate Registered(py: Operators, items: seq<Item>, inputs: map<string, PyVal>, origins: Store<Origin>,
                             x: IoName)
  {
    && x in origins
    && ((x.Request? && origins[x] == Supplied(x.input))
        || ((x.Output? || x.ResultOf?) && Placed(py, items, inputs, First, x, origins[x])
            && (x.ResultOf? ==>
                exists r :: r in RegionsOf(items) && x.region == r.id && Surfaced(py, r, inputs, x.key).Some?)))
  }

  lemma GuardedRegistered(py: Operators, w: Workflow, items: seq<Item>, inputs: map<string, PyVal>, o: (IoName, string))
    requires WellScoped(w, items, inputs) && Guarded(py, w, inputs) && OriginsOf(py, items, inputs).Ok?
               && o in w.outputs
    ensures Registered(py, items, inputs, OriginsOf(py, items, inputs).value, o.0)
  {
    hide ItemsScoped, Surfaced;
    var x, rho := o.0, SuppliedStore(inputs);
    if x in RequestNames(inputs) {
      ItemsKeep(py, items, inputs, rho, First, x);
    } else {
      DefinedNames(items, RequestNames(inputs), x);
      if x.ResultOf? {
        var r :| r in RegionsOf(items) && x in ResultNames(r);
        assert x.region == r.id && Surfaced(py, r, inputs, x.key).Some?;
      }
      ItemsPlaced(py, items, inputs, rho, First, RequestNames(inputs), IdsOfItems(items), x);
    }
  }

  /** Two registered names of one origin are one name. */
  lemma RegisteredDiffer(py: Operators, w: Workflow, items: seq<Item>, inputs: map<string, PyVal>,
                         origins: Store<Origin>,
                         o: (IoName, string), o': (IoName, string))
    requires Guarded(py, w, inputs) && RegionsOf(items) == w.regions && o in w.outputs && o' in w.outputs
    requires Registered(py, items, inputs, origins, o.0) && Registered(py, items, inputs, origins, o'.0)
    requires origins[o.0] == origins[o'.0]
    ensures o.0 == o'.0
  {
    hide Surfaced;
    var x, y := o.0, o'.0;
    if x.ResultOf? && y.ResultOf? {
      var r :| r in RegionsOf(items) && x.region == r.id && Surfaced(py, r, inputs, x.key).Some?;
      var q :| q in RegionsOf(items) && y.region == q.id && Surfaced(py, q, inputs, y.key).Some?;
      if r.id != q.id {
        PlacesDiffer(items, r.id, q.id, First);
      } else {
        assert Surfaced(py, r, inputs, x.key) == Surfaced(py, r, inputs, y.key);
      }
    }
  }

  /** Under the guard nothing is lost, whatever the labels. */
  lemma GuardedKeepsAll(py: Operators, w: Workflow, items: seq<Item>, inputs: map<string, PyVal>, minted: nat,
                        g: Expanded)
    requires WellScoped(w, items, inputs) && Expand(py, w, inputs, minted) == Ok(g) && Guarded(py, w, inputs)
    requires forall o, o' | o in w.outputs && o' in w.outputs && o.0 == o'.0 :: o == o'
    ensures AllKept(w, g)
  {
    hide Guarded, Registered, ItemsScoped, Expand, OriginsOf;
    OutputsKeptExactly(py, w, items, inputs, minted, g);
    var origins := OriginsOf(py, items, inputs).value;
    forall o, o' | o in w.outputs && o' in w.outputs && o.0 in origins && o'.0 in origins
        && origins[o.0] == origins[o'.0]
      ensures o.1 == o'.1
    {
      GuardedRegistered(py, w, items, inputs, o);
      GuardedRegistered(py, w, items, inputs, o');
      RegisteredDiffer(py, w, items, inputs, origins, o, o');
    }
  }

  /**
   * A node whose output is both registered as "before" and carried into a loop, whose result is
   * registered as "after".
   */
  function AliasingWorkflow(trips: int): Workflow {
    var n := Authored("encode", 0);
    var node := Node(n, "encode", "run", map[], {"x"}, {"x"});
    var loop := Loop("refine", Const(PyInt(trips)), map["c" := NodeIO(Output(n, "x"), NODE)],
                     map["c" := NodeIO(Carry("refine", "c"), NODE)], Nil);
    Workflow([node], [loop], [(Output(n, "x"), "before"), (ResultOf("refine", "c"), "after")])
  }

  /** A zero-trip loop aliases its initial carry; with both registered as outputs, the first label disappears. */
  lemma ZeroTripLosesAnOutput(py: Operators)
    ensures var w := AliasingWorkflow(0);
            && WellScoped(w, [Plain(w.nodes[0]), Reg(w.regions[0])], map[])
            && Expand(py, w, map[], 0).Ok?
            && Expand(py, w, map[], 0).value.outputs == map[Output(Authored("encode", 0), "x") := "after"]
  {
    var w := AliasingWorkflow(0);
    var node, loop := w.nodes[0], w.regions[0];
    var items := [Plain(node), Reg(loop)];
    assert items[1..] == [Reg(loop)] && items[1..][1..] == [];
    AliasingScoped(w, items);
    var st := Start(w, 0);
    var x := NodeIO(Output(node.name, "x"), NODE);
    assert ResolveAll(loop.carryInit, map[], st.subst) == map["c" := x];
    assert ExpandLoop(py, loop, map[], map[], map[], map["c" := x], 0, 0, st) == Ok((map["c" := x], st));
    assert TripCount(py, "refine", Const(PyInt(0)), map[] + map[]) == Ok(0);
    var st1 := BindResults(loop, map["c" := x], st);
    assert ExpandRegion(py, loop, map[], map[], map[], st) == Ok(st1);
    assert w.regions[1..] == [];
    assert ExpandRegions(py, w.regions, map[], st) == Ok(st1);
    assert ResultOf("refine", "c") in st1.subst && st1.subst[ResultOf("refine", "c")] == x;
    AliasingOutputs(w, st1.subst);
  }

  lemma AliasingOutputs(w: Workflow, subst: map<IoName, NodeIO>)
    requires w == AliasingWorkflow(0)
    requires ResultOf("refine", "c") in subst
               && subst[ResultOf("refine", "c")].name == Output(Authored("encode", 0), "x")
    requires Output(Authored("encode", 0), "x") !in subst
    ensures RemapOutputs(w.outputs, subst) == map[Output(Authored("encode", 0), "x") := "after"]
  {
    assert w.outputs[..1] == [w.outputs[0]];
    assert w.outputs[..1][..0] == [];
    assert RemapOutputs(w.outputs[..1], subst) == map[Output(Authored("encode", 0), "x") := "before"];
  }

  lemma AliasingScoped(w: Workflow, items: seq<Item>)
    requires w == AliasingWorkflow(0) && items == [Plain(w.nodes[0]), Reg(w.regions[0])]
    ensures WellScoped(w, items, map[])
  {
    var node, loop := w.nodes[0], w.regions[0];
    var rest := [Reg(loop)];
    assert items[1..] == rest && rest[1..] == [];
    var none: seq<Item> := rest[1..];
    assert PlainsOf(none) == [] && RegionsOf(none) == [] && IdsOfItems(none) == {};
    assert PlainsOf(rest) == [] && RegionsOf(rest) == [loop];
    assert PlainsOf(items) == [node] && RegionsOf(items) == [loop];
    assert IdsOfItems(rest) == {"refine"} && IdsOfItems(items) == {"refine"};
    var defined := RequestNames(map[]) + OutputNames(node);
    assert Output(node.name, "x") in defined;
    assert RegionScoped(loop, defined, {"refine"}) by {
      assert "c" in loop.carryInit && Carry("refine", "c") in LoopDefined(loop, defined);
      assert Defined(loop.body, LoopDefined(loop, defined)) == LoopDefined(loop, defined);
      assert MapReadsIn(loop.carryOut, LoopDefined(loop, defined));
    }
    assert ItemsScoped(rest, defined, {"refine"});
    assert ResultOf("refine", "c") in ResultNames(loop);
    assert ItemsDefined(rest, defined) == ItemsDefined(none, defined + ResultNames(loop));
    assert ItemsDefined(items, RequestNames(map[])) == defined + ResultNames(loop);
  }
}
