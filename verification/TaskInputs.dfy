/** How the inputs of a task travel: by value or by location from the coordinator, gathered by the worker. */
module TaskInputs {
  import opened Wrappers

  /** What an input of the node reads: the name of a request input or of an output, and whether lazily. */
  datatype Input = Input(name: string, late: bool)

  /** Where a value came from; two values are the same only if they came from one place. */
  datatype Value = Given(name: string) | Final(tag: string) | Tensor(name: string) | Lazily(name: string) | Nothing

  /** The request's inputs, the labels its registered outputs go by, and the tensors recorded for it. */
  datatype Request = Request(inputs: set<string>, registered: map<string, string>, recorded: set<string>)

  /** The parts of a task message; `Nothing` stands in `values` for what has a location. */
  datatype Message = Message(values: map<string, Value>, located: map<string, string>, awaited: map<string, string>)

  /** What the operator should get. */
  function Wanted(r: Request, attached: set<string>, input: Input): Value {
    if input.late then (if input.name in attached then Tensor(input.name) else Lazily(input.name))
    else if input.name in r.inputs then Given(input.name)
    else if input.name in r.registered then Final(r.registered[input.name])
    else if input.name in r.recorded then Tensor(input.name)
    else Nothing
  }

  function AllWanted(r: Request, attached: set<string>, node: map<string, Input>): map<string, Value> {
    map k | k in node :: Wanted(r, attached, node[k])
  }

  // ---------------------------------------------------------------- the coordinator

  /** One input: a registered output is passed under its label. */
  function Prepare(r: Request, m: Message, k: string, input: Input): Message {
    if input.late then m.(awaited := m.awaited[k := input.name])
    else if input.name in r.inputs then m.(values := m.values[k := Given(input.name)])
    else if input.name in r.registered then
      var tag := r.registered[input.name];
      m.(values := m.values[tag := Final(tag)])
    else if input.name in r.recorded then
      m.(values := m.values[k := Nothing], located := m.located[k := input.name])
    else m
  }

  function Prepared(r: Request, node: map<string, Input>, order: seq<string>): Message
    requires forall k | k in order :: k in node
  {
    if order == [] then Message(map[], map[], map[])
    else
      var last := order[|order| - 1];
      Prepare(r, Prepared(r, node, order[..|order| - 1]), last, node[last])
  }

  /** _prepare_task_inputs */
  method PrepareTaskInputs(r: Request, node: map<string, Input>, order: seq<string>) returns (m: Message)
    requires forall k | k in order :: k in node
    ensures m == Prepared(r, node, order)
  {
    var values: map<string, Value>, located: map<string, string>, awaited: map<string, string> := map[], map[], map[];
    for i := 0 to |order|
      invariant Message(values, located, awaited) == Prepared(r, node, order[..i])
    {
      assert order[..i + 1][..i] == order[..i];
      var k, input := order[i], node[order[i]];
      if input.late {
        awaited := awaited[k := input.name];
      } else if input.name in r.inputs {
        values := values[k := Given(input.name)];
      } else if input.name in r.registered {
        var tag := r.registered[input.name];
        values := values[tag := Final(tag)];
      } else if input.name in r.recorded {
        values := values[k := Nothing];
        located := located[k := input.name];
      }
    }
    assert order[..|order|] == order;
    return Message(values, located, awaited);
  }

  /** _schedule_task_group: lazy inputs recorded by then are located like the others. */
  function Attached(m: Message, attached: set<string>): Message {
    m.(located := m.located + map k | k in m.awaited && m.awaited[k] in attached :: m.awaited[k],
       awaited := map k | k in m.awaited && m.awaited[k] !in attached :: m.awaited[k])
  }

  // ---------------------------------------------------------------- the worker

  /** What the worker finds for an input; an error if it is nowhere. */
  function Found(m: Message, k: string): Option<Value> {
    if k in m.located then Some(Tensor(m.located[k]))
    else if k in m.awaited then Some(Lazily(m.awaited[k]))
    else if k in m.values then Some(m.values[k])
    else None
  }

  /** Phase 1 of a task: its inputs in turn, refusing the first that is nowhere. */
  method GatherInputs(m: Message, order: seq<string>) returns (inputs: Result<map<string, Value>, string>)
    ensures inputs.Ok? ==> inputs.value.Keys == (set k | k in order)
    ensures inputs.Ok? ==> forall k | k in order :: Found(m, k) == Some(inputs.value[k])
    ensures inputs.Err? ==>
              exists i | 0 <= i < |order| ::
                order[i] == inputs.error && Found(m, order[i]).None?
                  && forall j | 0 <= j < i :: Found(m, order[j]).Some?
  {
    var found: map<string, Value> := map[];
    for i := 0 to |order|
      invariant found.Keys == (set k | k in order[..i])
      invariant forall k | k in order[..i] :: Found(m, k) == Some(found[k])
      invariant forall j | 0 <= j < i :: Found(m, order[j]).Some?
    {
      assert order[..i + 1] == order[..i] + [order[i]];
      var value := Found(m, order[i]);
      if value.None? {
        return Err(order[i]);
      }
      found := found[order[i] := value.value];
    }
    assert order[..|order|] == order;
    return Ok(found);
  }

  // ---------------------------------------------------------------- every input arrives, exactly when

  /** `order` is the order in which the node's inputs are stored. */
  ghost predicate OrderOf(node: map<string, Input>, order: seq<string>) {
    (forall i, j | 0 <= i < j < |order| :: order[i] != order[j]) && forall k :: k in order <==> k in node
  }

  ghost predicate Arrive(r: Request, attached: set<string>, node: map<string, Input>, order: seq<string>)
    requires OrderOf(node, order)
  {
    forall k | k in node ::
      Found(Attached(Prepared(r, node, order), attached), k) == Some(Wanted(r, attached, node[k]))
        && Wanted(r, attached, node[k]) != Nothing
  }

  /** Every input is there, and a registered output is read by inputs of its label only. */
  predicate Fits(r: Request, node: map<string, Input>) {
    forall k | k in node && !node[k].late && node[k].name !in r.inputs ::
      if node[k].name in r.registered then r.registered[node[k].name] == k else node[k].name in r.recorded
  }

  /** The worker gets every input as the operator should, if and only if the node fits. */
  lemma InputsArriveExactly(r: Request, attached: set<string>, node: map<string, Input>, order: seq<string>)
    requires OrderOf(node, order)
    ensures Arrive(r, attached, node, order) <==> Fits(r, node)
  {
    hide Prepared, Prepare;
    var m := Prepared(r, node, order);
    forall k | k in node && !Stray(r, k, node[k])
      ensures Fits(r, node) ==> Own(r, m, k, node[k])
    {
      if Fits(r, node) { OwnKept(r, node, order, k); }
    }
    forall k | k in node && Stray(r, k, node[k])
      ensures Found(Attached(m, attached), k) != Some(Wanted(r, attached, node[k]))
                || Wanted(r, attached, node[k]) == Nothing
    {
      StrayLost(r, node, order, k);
    }
    if Fits(r, node) {
      forall k | k in node
        ensures Found(Attached(m, attached), k) == Some(Wanted(r, attached, node[k]))
      {
        assert !Stray(r, k, node[k]);
      }
    } else {
      var k :| k in node && Stray(r, k, node[k]);
    }
  }

  /** Nothing is passed under the input's own name. */
  predicate Stray(r: Request, k: string, input: Input) {
    && !input.late && input.name !in r.inputs
    && if input.name in r.registered then r.registered[input.name] != k else input.name !in r.recorded
  }

  /** The message has what the input reads, under its own name. */
  ghost predicate Own(r: Request, m: Message, k: string, input: Input) {
    if input.late then k in m.awaited && m.awaited[k] == input.name && k !in m.located
    else if input.name in r.inputs || input.name in r.registered then
      k !in m.awaited && k !in m.located && k in m.values && m.values[k] == Wanted(r, {}, input)
    else k !in m.awaited && k in m.located && m.located[k] == input.name
  }

  lemma {:induction false} OwnKept(r: Request, node: map<string, Input>, order: seq<string>, k: string)
    requires (forall j | j in order :: j in node) && (forall i, j | 0 <= i < j < |order| :: order[i] != order[j])
    requires k in order && Fits(r, node)
    ensures Own(r, Prepared(r, node, order), k, node[k])
    decreases |order|
  {
    var front, last := order[..|order| - 1], order[|order| - 1];
    assert forall j | j in front :: j in node;
    if last == k {
      Untouched(r, node, front, k);
    } else {
      assert k in front;
      OwnKept(r, node, front, k);
    }
  }

  /** Inputs other than `k` leave no location under its name. */
  lemma {:induction false} Untouched(r: Request, node: map<string, Input>, order: seq<string>, k: string)
    requires (forall j | j in order :: j in node) && k !in order
    ensures var m := Prepared(r, node, order); k !in m.awaited && k !in m.located
    decreases |order|
  {
    if order != [] {
      var front := order[..|order| - 1];
      assert forall j | j in front :: j in node && j in order;
      Untouched(r, node, front, k);
    }
  }

  /** Under a stray input's name there is at most another output, the one of that label. */
  lemma {:induction false} StrayLost(r: Request, node: map<string, Input>, order: seq<string>, k: string)
    requires (forall j | j in order :: j in node) && k in node && Stray(r, k, node[k])
    ensures var m := Prepared(r, node, order);
            k !in m.awaited && k !in m.located && (k in m.values ==> m.values[k] == Final(k))
    decreases |order|
  {
    if order != [] {
      var front := order[..|order| - 1];
      assert forall j | j in front :: j in node && j in order;
      StrayLost(r, node, front, k);
    }
  }

  /** A decoded image that is also registered, as `preview`, and read as `image`: the worker refuses the task. */
  lemma RegisteredUnderAnotherName()
    ensures var r, node := Request({}, map["decoded" := "preview"], {"decoded"}),
              map["image" := Input("decoded", false)];
            OrderOf(node, ["image"]) && Found(Attached(Prepared(r, node, ["image"]), {}), "image").None?
  {
    var r, node := Request({}, map["decoded" := "preview"], {"decoded"}), map["image" := Input("decoded", false)];
    assert ["image"][..0] == [];
    assert Prepared(r, node, ["image"]) == Prepare(r, Prepared(r, node, []), "image", node["image"]);
  }
}
