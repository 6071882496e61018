/** The wire form of regions: printing to dictionaries, parsing back, and exactly when nothing is lost. */
module RegionFormat {
  import opened Wrappers
  import opened Expressions

  /** What a dictionary that came through JSON can hold. */
  datatype Json = Null | Scalar(value: PyVal) | Arr(items: seq<Json>) | Obj(fields: map<string, Json>)

  datatype Source = INPUT | NODE

  datatype NodeIO = NodeIO(
    name: string, dataType: string, source: Option<Source>, sourceNode: Option<string>, size: Option<seq<int>>,
    lazy: bool)

  type Ios = map<string, NodeIO>

  /** An operator is known by the dictionary it prints. */
  datatype Node = Node(name: string, op: Json, mode: string, inputs: map<string, Option<NodeIO>>, outputs: Ios)

  datatype Op = NodeOp(node: Node) | RegionOp(region: Region)

  datatype Program = Program(ops: seq<Op>)

  datatype Region =
    | Loop(id: string, trip: Expr, inductionVar: NodeIO, carryPlaceholders: Ios, carryInit: Ios, carryOut: Ios,
           body: Program, results: Ios, ivTemplate: string)
    | Cond(id: string, predicate_: Expr, thenBody: Program, thenResults: Ios, results: Ios,
           elseBody: Option<Program>, elseResults: Option<Ios>)

  /** `Malformed` stands for the KeyError, TypeError or ValueError Python itself raises. */
  datatype ParseError =
    | NotAnObject
    | UnknownKind
    | Missing(key: string)
    | UnknownOperator(op: string)
    | BadConstant
    | BadInputName
    | KeysDisagree(region: string, which: string)
    | NoElseBranch(region: string)
    | Malformed

  const BINOPS: set<string> :=
    {"+", "-", "*", "/", "//", "%", "min", "max", ">", ">=", "<", "<=", "==", "!=", "and", "or"}

  const UNOPS: set<string> := {"int", "float", "bool", "not", "neg"}

  function Str(s: string): Json { Scalar(PyStr(s)) }

  // ---------------------------------------------------------------- reading dictionaries

  function Get(fields: map<string, Json>, key: string): Result<Json, ParseError> {
    if key in fields then Ok(fields[key]) else Err(Malformed)
  }

  function GetOr(fields: map<string, Json>, key: string, default_: Json): Json {
    if key in fields then fields[key] else default_
  }

  function AsString(j: Json): Result<string, ParseError> {
    if j.Scalar? && j.value.PyStr? then Ok(j.value.s) else Err(Malformed)
  }

  /** The first of the required keys that is not there. */
  function FirstMissing(fields: map<string, Json>, required: seq<string>): (missing: Option<string>)
    ensures missing.None? <==> forall k | k in required :: k in fields
    ensures missing.Some? ==> missing.value in required && missing.value !in fields
  {
    if required == [] then None
    else if required[0] !in fields then Some(required[0])
    else FirstMissing(fields, required[1..])
  }

  // ---------------------------------------------------------------- expressions

  function PrintExpr(e: Expr): Json {
    match e
    case Const(v) => Obj(map["kind" := Str("const"), "value" := Scalar(v)])
    case InputRef(name) => Obj(map["kind" := Str("input"), "input_name" := Str(name)])
    case BinOp(op, lhs, rhs) =>
      Obj(map["kind" := Str("binop"), "op" := Str(op), "lhs" := PrintExpr(lhs), "rhs" := PrintExpr(rhs)])
    case UnaryOp(op, operand) => Obj(map["kind" := Str("unaryop"), "op" := Str(op), "operand" := PrintExpr(operand)])
  }

  function ParseExpr(j: Json): Result<Expr, ParseError> {
    if !j.Obj? then Err(NotAnObject)
    else
      var kind := GetOr(j.fields, "kind", Null);
      if kind == Str("const") then
        if "value" !in j.fields then Err(Missing("value"))
        else if !j.fields["value"].Scalar? then Err(BadConstant)
        else Ok(Const(j.fields["value"].value))
      else if kind == Str("input") then
        if "input_name" !in j.fields then Err(Missing("input_name"))
        else
          var name := AsString(j.fields["input_name"]);
          if name.Err? || name.value == "" then Err(BadInputName) else Ok(InputRef(name.value))
      else if kind == Str("binop") then
        var missing := FirstMissing(j.fields, ["op", "lhs", "rhs"]);
        if missing.Some? then Err(Missing(missing.value))
        else
          var lhs :- ParseExpr(j.fields["lhs"]);
          var rhs :- ParseExpr(j.fields["rhs"]);
          var op :- AsString(j.fields["op"]);
          if op !in BINOPS then Err(UnknownOperator(op)) else Ok(BinOp(op, lhs, rhs))
      else if kind == Str("unaryop") then
        var missing := FirstMissing(j.fields, ["op", "operand"]);
        if missing.Some? then Err(Missing(missing.value))
        else
          var operand :- ParseExpr(j.fields["operand"]);
          var op :- AsString(j.fields["op"]);
          if op !in UNOPS then Err(UnknownOperator(op)) else Ok(UnaryOp(op, operand))
      else Err(UnknownKind)
  }

  /** What the constructors of the four expression classes accept. */
  predicate ExprOk(e: Expr) {
    match e
    case Const(_) => true
    case InputRef(name) => name != ""
    case BinOp(op, lhs, rhs) => op in BINOPS && ExprOk(lhs) && ExprOk(rhs)
    case UnaryOp(op, operand) => op in UNOPS && ExprOk(operand)
  }

  lemma BinOpUnfolds(op: string, lhs: Expr, rhs: Expr)
    ensures ParseExpr(PrintExpr(BinOp(op, lhs, rhs))) == Ok(BinOp(op, lhs, rhs))
            <==> ParseExpr(PrintExpr(lhs)) == Ok(lhs) && ParseExpr(PrintExpr(rhs)) == Ok(rhs) && op in BINOPS
  {
    var f := PrintExpr(BinOp(op, lhs, rhs)).fields;
    assert "op" in f && "lhs" in f && "rhs" in f;
    assert FirstMissing(f, ["op", "lhs", "rhs"]).None?;
  }

  lemma UnaryOpUnfolds(op: string, operand: Expr)
    ensures ParseExpr(PrintExpr(UnaryOp(op, operand))) == Ok(UnaryOp(op, operand))
            <==> ParseExpr(PrintExpr(operand)) == Ok(operand) && op in UNOPS
  {
    var f := PrintExpr(UnaryOp(op, operand)).fields;
    assert "op" in f && "operand" in f;
    assert FirstMissing(f, ["op", "operand"]).None?;
  }

  /** Parsing undoes printing exactly on the expressions the constructors accept. */
  lemma {:induction false} ExprRoundTrip(e: Expr)
    ensures ParseExpr(PrintExpr(e)) == Ok(e) <==> ExprOk(e)
  {
    match e
    case Const(_) =>
    case InputRef(_) =>
    case BinOp(op, lhs, rhs) =>
      hide ParseExpr, PrintExpr;
      BinOpUnfolds(op, lhs, rhs);
      ExprRoundTrip(lhs);
      ExprRoundTrip(rhs);
    case UnaryOp(op, operand) =>
      hide ParseExpr, PrintExpr;
      UnaryOpUnfolds(op, operand);
      ExprRoundTrip(operand);
  }

  /** The parser lets no other expression through. */
  lemma {:induction false} ParsedExprOk(j: Json)
    requires ParseExpr(j).Ok?
    ensures ExprOk(ParseExpr(j).value)
  {
    var kind := GetOr(j.fields, "kind", Null);
    if kind == Str("binop") {
      ParsedExprOk(j.fields["lhs"]);
      ParsedExprOk(j.fields["rhs"]);
    } else if kind == Str("unaryop") {
      ParsedExprOk(j.fields["operand"]);
    }
  }

  /** The value a printed expression stands for, read off the dictionary itself. */
  function WireValue(py: Operators, j: Json, env: map<string, PyVal>): Option<PyVal> {
    if !j.Obj? || "kind" !in j.fields then None
    else if j.fields["kind"] == Str("const") then
      if "value" in j.fields && j.fields["value"].Scalar? then Some(j.fields["value"].value) else None
    else if j.fields["kind"] == Str("input") then
      if "input_name" in j.fields && j.fields["input_name"].Scalar? && j.fields["input_name"].value.PyStr?
         && j.fields["input_name"].value.s in env
      then Some(env[j.fields["input_name"].value.s]) else None
    else if j.fields["kind"] == Str("binop") then
      if "op" in j.fields && "lhs" in j.fields && "rhs" in j.fields
         && j.fields["op"].Scalar? && j.fields["op"].value.PyStr?
      then
        var left, right := WireValue(py, j.fields["lhs"], env), WireValue(py, j.fields["rhs"], env);
        if left.Some? && right.Some? then py.bin(j.fields["op"].value.s, left.value, right.value) else None
      else None
    else if j.fields["kind"] == Str("unaryop") then
      if "op" in j.fields && "operand" in j.fields && j.fields["op"].Scalar? && j.fields["op"].value.PyStr? then
        var operand := WireValue(py, j.fields["operand"], env);
        if operand.Some? then py.un(j.fields["op"].value.s, operand.value) else None
      else None
    else None
  }

  function ValueOf(r: Result<PyVal, Error>): Option<PyVal> {
    match r case Ok(v) => Some(v) case Err(_) => None
  }

  /** Parsing preserves meaning: the expression has the value that the dictionary stands for. */
  lemma {:induction false} ParsedMeaning(py: Operators, j: Json, env: map<string, PyVal>)
    requires ParseExpr(j).Ok?
    ensures ValueOf(Eval(py, ParseExpr(j).value, env)) == WireValue(py, j, env)
  {
    var kind := GetOr(j.fields, "kind", Null);
    if kind == Str("binop") {
      ParsedMeaning(py, j.fields["lhs"], env);
      ParsedMeaning(py, j.fields["rhs"], env);
    } else if kind == Str("unaryop") {
      ParsedMeaning(py, j.fields["operand"], env);
    }
  }

  /** Printing preserves meaning. */
  lemma {:induction false} PrintedMeaning(py: Operators, e: Expr, env: map<string, PyVal>)
    ensures WireValue(py, PrintExpr(e), env) == ValueOf(Eval(py, e, env))
  {
    match e
    case Const(_) =>
    case InputRef(_) =>
    case BinOp(op, lhs, rhs) =>
      PrintedMeaning(py, lhs, env);
      PrintedMeaning(py, rhs, env);
    case UnaryOp(op, operand) =>
      PrintedMeaning(py, operand, env);
  }

  // ---------------------------------------------------------------- values and nodes

  function PrintSource(source: Option<Source>): Json {
    match source
    case None => Null
    case Some(INPUT) => Str("input")
    case Some(NODE) => Str("node")
  }

  /** A falsy value is no source. */
  function ParseSource(j: Json): Result<Option<Source>, ParseError> {
    if j == Null || (j.Scalar? && !Truthy(j.value)) || j == Arr([]) || j == Obj(map[]) then Ok(None)
    else if j == Str("input") then Ok(Some(INPUT))
    else if j == Str("node") then Ok(Some(NODE))
    else Err(Malformed)
  }

  function PrintIO(io: NodeIO): Json {
    Obj(map[
      "name" := Str(io.name), "data_type" := Str(io.dataType), "source_type" := PrintSource(io.source),
      "source_node" := (match io.sourceNode case None => Null case Some(n) => Str(n)),
      "size" := (match io.size case None => Null
                                  case Some(d) => Arr(seq(|d|, i requires 0 <= i < |d| => Scalar(PyInt(d[i]))))),
      "lazy" := Scalar(PyBool(io.lazy))])
  }

  function ParseSize(j: Json): Result<Option<seq<int>>, ParseError> {
    if j == Null then Ok(None)
    else if j.Arr? && forall d | d in j.items :: d.Scalar? && d.value.PyInt? then
      Ok(Some(seq(|j.items|, i requires 0 <= i < |j.items| => j.items[i].value.i)))
    else Err(Malformed)
  }

  function ParseIO(j: Json): Result<NodeIO, ParseError> {
    if !j.Obj? then Err(Malformed)
    else
      var name :- Get(j.fields, "name");
      var name' :- AsString(name);
      var dataType :- Get(j.fields, "data_type");
      var dataType' :- AsString(dataType);
      var source :- Get(j.fields, "source_type");
      var source' :- ParseSource(source);
      var node :- Get(j.fields, "source_node");
      var size :- Get(j.fields, "size");
      var size' :- ParseSize(size);
      var lazy :- Get(j.fields, "lazy");
      if !lazy.Scalar? || !lazy.value.PyBool? then Err(Malformed)
      else if node == Null then Ok(NodeIO(name', dataType', source', None, size', lazy.value.b))
      else
        var node' :- AsString(node);
        Ok(NodeIO(name', dataType', source', Some(node'), size', lazy.value.b))
  }

  function PrintIos(ios: Ios): Json {
    Obj(map k | k in ios :: PrintIO(ios[k]))
  }

  function ParseIos(j: Json): Result<Ios, ParseError> {
    if j.Obj? && forall k | k in j.fields ::
        ParseIO(j.fields[k]).Ok? then Ok(map k | k in j.fields :: ParseIO(j.fields[k]).value)
    else Err(Malformed)
  }

  lemma PrintedIO(io: NodeIO) returns (f: map<string, Json>)
    ensures PrintIO(io) == Obj(f)
    ensures f.Keys == {"name", "data_type", "source_type", "source_node", "size", "lazy"}
    ensures f["name"] == Str(io.name) && f["data_type"] == Str(io.dataType) && f["lazy"] == Scalar(PyBool(io.lazy))
    ensures f["source_type"] == if io.source == Some(INPUT) then Str("input")
                                else if io.source == Some(NODE) then Str("node") else Null
    ensures f["source_node"] == if io.sourceNode.Some? then Str(io.sourceNode.value) else Null
    ensures ParseSize(f["size"]) == Ok(io.size)
  {
    f := PrintIO(io).fields;
    if io.size.Some? {
      assert ParseSize(f["size"]).value.value == io.size.value;
    }
  }

  lemma IORoundTrip(io: NodeIO)
    ensures ParseIO(PrintIO(io)) == Ok(io)
  {
    hide PrintIO;
    var fields := PrintedIO(io);
    match io.source
    case None =>
    case Some(INPUT) =>
    case Some(NODE) => assert fields["source_type"].value.s[0] == 'n';
  }

  lemma IosRoundTrip(ios: Ios)
    ensures ParseIos(PrintIos(ios)) == Ok(ios)
  {
    hide PrintIO, ParseIO;
    var fields := PrintIos(ios).fields;
    forall k | k in fields ensures ParseIO(fields[k]) == Ok(ios[k]) {
      IORoundTrip(ios[k]);
    }
    assert (map k | k in fields :: ParseIO(fields[k]).value) == ios;
  }

  /** An unwired input prints as null. */
  function PrintInputs(ins: map<string, Option<NodeIO>>): Json {
    Obj(map k | k in ins :: match ins[k] case None => Null case Some(io) => PrintIO(io))
  }

  function PrintNode(n: Node): Json {
    Obj(map[
      "name" := Str(n.name), "op" := n.op, "mode" := Str(n.mode),
      "inputs" := PrintInputs(n.inputs), "outputs" := PrintIos(n.outputs)])
  }

  function ParseNode(j: Json): Result<Node, ParseError> {
    if !j.Obj? then Err(Malformed)
    else
      var inputs :- Get(j.fields, "inputs");
      var inputs' :- ParseIos(inputs);
      var outputs :- Get(j.fields, "outputs");
      var outputs' :- ParseIos(outputs);
      var name :- Get(j.fields, "name");
      var name' :- AsString(name);
      var op :- Get(j.fields, "op");
      var mode :- AsString(GetOr(j.fields, "mode", Str("default")));
      Ok(Node(name', op, mode, map k | k in inputs' :: Some(inputs'[k]), outputs'))
  }

  predicate Wired(n: Node) {
    forall k | k in n.inputs :: n.inputs[k].Some?
  }

  lemma InputsRoundTrip(n: Node)
    ensures var back := ParseIos(PrintInputs(n.inputs));
            if Wired(n) then back.Ok? && (map k | k in back.value :: Some(back.value[k])) == n.inputs else back.Err?
  {
    assert ParseIO(Null).Err?;
    hide PrintIO, ParseIO;
    var fields := PrintInputs(n.inputs).fields;
    forall k | k in n.inputs && n.inputs[k].Some? ensures ParseIO(fields[k]) == Ok(n.inputs[k].value) {
      IORoundTrip(n.inputs[k].value);
    }
    if k :| k in n.inputs && n.inputs[k].None? {
      assert k in fields && fields[k] == Null;
    }
  }

  lemma PrintedNode(n: Node) returns (f: map<string, Json>)
    ensures PrintNode(n) == Obj(f) && "name" in f && "op" in f && "mode" in f && "inputs" in f && "outputs" in f
    ensures f["name"] == Str(n.name) && f["op"] == n.op && f["mode"] == Str(n.mode)
    ensures f["inputs"] == PrintInputs(n.inputs) && f["outputs"] == PrintIos(n.outputs)
  {
    hide PrintIos, PrintInputs;
    f := PrintNode(n).fields;
  }

  /**
   * A node survives exactly when every input is wired: the printer writes null for the others, and the
   * parser cannot read it.
   */
  lemma NodeRoundTrip(n: Node)
    ensures ParseNode(PrintNode(n)) == Ok(n) <==> Wired(n)
  {
    hide PrintNode, PrintIos, PrintInputs, ParseIos, Wired;
    var f := PrintedNode(n);
    IosRoundTrip(n.outputs);
    InputsRoundTrip(n);
  }

  /** One unwired input is enough: what the printer wrote is refused. */
  lemma UnwiredInputIsRefused()
    ensures ParseNode(PrintNode(Node("vae_1", Null, "default", map["mask" := None], map[]))) == Err(Malformed)
  {
    var n := Node("vae_1", Null, "default", map["mask" := None], map[]);
    assert "mask" in n.inputs && !Wired(n);
    var f := PrintedNode(n);
    InputsRoundTrip(n);
  }

  // ---------------------------------------------------------------- programs and regions

  function PrintOp(op: Op): Json
    decreases op, 0
  {
    match op
    case NodeOp(n) => Obj(map["op_kind" := Str("node"), "node" := PrintNode(n)])
    case RegionOp(r) => Obj(map["op_kind" := Str("region"), "region" := PrintRegion(r)])
  }

  function PrintProgram(p: Program): Json
    decreases p, 0
  {
    Arr(seq(|p.ops|, i requires 0 <= i < |p.ops| => PrintOp(p.ops[i])))
  }

  function PrintRegion(r: Region): Json
    decreases r, 0
  {
    match r
    case Loop(id, trip, inductionVar, carryPlaceholders, carryInit, carryOut, body, results, ivTemplate) =>
      Obj(map[
        "region_kind" := Str("loop"), "id" := Str(id), "trip_count" := PrintExpr(trip),
        "induction_var" := PrintIO(inductionVar), "iv_name_template" := Str(ivTemplate),
        "carry_placeholders" := PrintIos(carryPlaceholders), "carry_init" := PrintIos(carryInit),
        "carry_out" := PrintIos(carryOut), "body" := PrintProgram(body), "results" := PrintIos(results)])
    case Cond(id, predicate_, thenBody, thenResults, results, elseBody, elseResults) =>
      Obj(map[
        "region_kind" := Str("cond"), "id" := Str(id), "predicate" := PrintExpr(predicate_),
        "then" := PrintBranch(thenBody, thenResults),
        "results" := PrintIos(results),
        "else" := match elseBody
          case None => Null
          case Some(body) => PrintBranch(body, match elseResults case None => map[] case Some(ios) => ios)])
  }

  function PrintBranch(body: Program, results: Ios): Json
    decreases body, 1
  {
    Obj(map["body" := PrintProgram(body), "results" := PrintIos(results)])
  }

  const LOOPKEYS: seq<string> :=
    ["id", "trip_count", "induction_var", "carry_placeholders", "carry_init", "carry_out", "body", "results"]

  const CONDKEYS: seq<string> := ["id", "predicate", "then", "results"]

  function ParseOp(j: Json): Result<Op, ParseError>
    decreases j, 0
  {
    if !j.Obj? then Err(Malformed)
    else
      var kind := GetOr(j.fields, "op_kind", Null);
      if kind == Str("node") then
        var node :- Get(j.fields, "node");
        var n :- ParseNode(node);
        Ok(NodeOp(n))
      else if kind == Str("region") then
        if "region" !in j.fields then Err(Malformed)
        else
          var r :- ParseRegion(j.fields["region"]);
          Ok(RegionOp(r))
      else Err(UnknownKind)
  }

  function ParseOps(items: seq<Json>): Result<seq<Op>, ParseError>
    decreases items, 2
  {
    if items == [] then Ok([])
    else
      var op :- ParseOp(items[0]);
      var rest :- ParseOps(items[1..]);
      Ok([op] + rest)
  }

  function ParseProgram(j: Json): Result<Program, ParseError>
    decreases j, 0
  {
    if !j.Arr? then Err(Malformed)
    else
      var ops :- ParseOps(j.items);
      Ok(Program(ops))
  }

  function ParseRegion(j: Json): Result<Region, ParseError>
    decreases j, 2
  {
    if !j.Obj? then Err(NotAnObject)
    else
      var kind := GetOr(j.fields, "region_kind", Null);
      if kind == Str("loop") then ParseLoop(j)
      else if kind == Str("cond") then ParseCond(j)
      else Err(UnknownKind)
  }

  function CheckLoop(r: Region): Result<Region, ParseError>
    requires r.Loop?
  {
    if r.carryPlaceholders.Keys != r.carryInit.Keys then Err(KeysDisagree(r.id, "carry_placeholders"))
    else if r.carryOut.Keys != r.carryInit.Keys then Err(KeysDisagree(r.id, "carry_out"))
    else if r.results.Keys != r.carryInit.Keys then Err(KeysDisagree(r.id, "results"))
    else Ok(r)
  }

  function CheckCond(r: Region): Result<Region, ParseError>
    requires r.Cond?
  {
    if r.thenResults.Keys != r.results.Keys then Err(KeysDisagree(r.id, "then"))
    else if r.elseResults.Some? && r.elseResults.value.Keys != r.results.Keys then Err(KeysDisagree(r.id, "else"))
    else if r.elseBody.None? && r.results.Keys != {} then Err(NoElseBranch(r.id))
    else Ok(r)
  }

  function ParseLoop(j: Json): Result<Region, ParseError>
    requires j.Obj?
    decreases j, 1
  {
    var missing := FirstMissing(j.fields, LOOPKEYS);
    if missing.Some? then Err(Missing(missing.value))
    else
      assert LOOPKEYS[0] in j.fields && LOOPKEYS[1] in j.fields && LOOPKEYS[2] in j.fields && LOOPKEYS[3] in j.fields
          && LOOPKEYS[4] in j.fields && LOOPKEYS[5] in j.fields && LOOPKEYS[6] in j.fields && LOOPKEYS[7] in j.fields;
      var id :- AsString(j.fields["id"]);
      var trip :- ParseExpr(j.fields["trip_count"]);
      var inductionVar :- ParseIO(j.fields["induction_var"]);
      var carryPlaceholders :- ParseIos(j.fields["carry_placeholders"]);
      var carryInit :- ParseIos(j.fields["carry_init"]);
      var carryOut :- ParseIos(j.fields["carry_out"]);
      var body :- ParseProgram(j.fields["body"]);
      var results :- ParseIos(j.fields["results"]);
      var ivTemplate :- AsString(GetOr(j.fields, "iv_name_template", Str("{region_id}_iv_{i}")));
      CheckLoop(Loop(id, trip, inductionVar, carryPlaceholders, carryInit, carryOut, body, results, ivTemplate))
  }

  function ParseBranch(j: Json): Result<(Program, Ios), ParseError>
    decreases j, 1
  {
    if !j.Obj? || "body" !in j.fields || "results" !in j.fields then Err(Malformed)
    else
      var body :- ParseProgram(j.fields["body"]);
      var results :- ParseIos(j.fields["results"]);
      Ok((body, results))
  }

  function ParseCond(j: Json): Result<Region, ParseError>
    requires j.Obj?
    decreases j, 1
  {
    var missing := FirstMissing(j.fields, CONDKEYS);
    if missing.Some? then Err(Missing(missing.value))
    else
      assert CONDKEYS[0] in j.fields && CONDKEYS[1] in j.fields && CONDKEYS[2] in j.fields && CONDKEYS[3] in j.fields;
      var id :- AsString(j.fields["id"]);
      var predicate_ :- ParseExpr(j.fields["predicate"]);
      var (thenBody, thenResults) :- ParseBranch(j.fields["then"]);
      var results :- ParseIos(j.fields["results"]);
      if GetOr(j.fields, "else", Null) == Null then
        CheckCond(Cond(id, predicate_, thenBody, thenResults, results, None, None))
      else
        var (elseBody, elseResults) :- ParseBranch(j.fields["else"]);
        CheckCond(Cond(id, predicate_, thenBody, thenResults, results, Some(elseBody), Some(elseResults)))
  }

  // ---------------------------------------------------------------- what survives the wire

  predicate OpPrintable(op: Op)
    decreases op, 0
  {
    match op
    case NodeOp(n) => Wired(n)
    case RegionOp(r) => RegionPrintable(r)
  }

  predicate ProgramPrintable(p: Program)
    decreases p, 0
  {
    forall i | 0 <= i < |p.ops| :: OpPrintable(p.ops[i])
  }

  /**
   * The two branches have the results' keys, and an else branch comes with its results; without one
   * there are no results.
   */
  predicate CondKeyed(r: Region)
    requires r.Cond?
  {
    && r.thenResults.Keys == r.results.Keys
    && (r.elseBody.Some? <==> r.elseResults.Some?)
    && if r.elseBody.Some? then r.elseResults.value.Keys == r.results.Keys else r.results == map[]
  }

  predicate LoopKeyed(r: Region)
    requires r.Loop?
  {
    r.carryPlaceholders.Keys == r.carryInit.Keys == r.carryOut.Keys && r.results.Keys == r.carryInit.Keys
  }

  predicate RegionPrintable(r: Region)
    decreases r, 0
  {
    match r
    case Loop(_, trip, _, _, _, _, body, _, _) => ExprOk(trip) && LoopKeyed(r) && ProgramPrintable(body)
    case Cond(_, predicate_, thenBody, _, _, elseBody, _) =>
      && ExprOk(predicate_) && CondKeyed(r) && ProgramPrintable(thenBody)
      && (elseBody.Some? ==> ProgramPrintable(elseBody.value))
  }

  lemma {:induction false} OpRoundTrip(op: Op)
    ensures ParseOp(PrintOp(op)) == Ok(op) <==> OpPrintable(op)
    decreases op, 0
  {
    match op
    case NodeOp(n) => NodeRoundTrip(n);
    case RegionOp(r) => RegionRoundTrip(r);
  }

  lemma {:induction false} OpsRoundTrip(ops: seq<Op>)
    ensures ParseOps(PrintProgram(Program(ops)).items) == Ok(ops) <==> forall i | 0 <= i < |ops| :: OpPrintable(ops[i])
    decreases ops, 0
  {
    var items := PrintProgram(Program(ops)).items;
    if ops != [] {
      assert items[1..] == PrintProgram(Program(ops[1..])).items;
      OpRoundTrip(ops[0]);
      OpsRoundTrip(ops[1..]);
      assert forall i | 1 <= i < |ops| :: ops[i] == ops[1..][i - 1];
      OpsUnfold(items, ops);
    }
  }

  lemma OpsUnfold(items: seq<Json>, ops: seq<Op>)
    requires ops != [] && items != []
    ensures ParseOps(items) == Ok(ops) <==> ParseOp(items[0]) == Ok(ops[0]) && ParseOps(items[1..]) == Ok(ops[1..])
  {
    assert ops == [ops[0]] + ops[1..];
    if ParseOps(items) == Ok(ops) {
      assert ops[1..] == ParseOps(items[1..]).value;
    }
  }

  lemma {:induction false} ProgramRoundTrip(p: Program)
    ensures ParseProgram(PrintProgram(p)) == Ok(p) <==> ProgramPrintable(p)
    decreases p, 0
  {
    OpsRoundTrip(p.ops);
  }

  /** Parsing undoes printing exactly on the printable regions. */
  lemma {:induction false} RegionRoundTrip(r: Region)
    ensures ParseRegion(PrintRegion(r)) == Ok(r) <==> RegionPrintable(r)
    decreases r, 0
  {
    match r
    case Loop(_, _, _, _, _, _, body, _, _) =>
      ProgramRoundTrip(body);
      LoopRoundTrip(r);
    case Cond(_, _, thenBody, _, _, elseBody, _) =>
      ProgramRoundTrip(thenBody);
      if elseBody.Some? { ProgramRoundTrip(elseBody.value); }
      CondRoundTrip(r);
  }

  lemma PrintedLoop(r: Region) returns (f: map<string, Json>)
    requires r.Loop?
    ensures PrintRegion(r) == Obj(f)
    ensures forall k | k in LOOPKEYS :: k in f
    ensures "region_kind" in f && f["region_kind"] == Str("loop") && f["id"] == Str(r.id)
              && f["trip_count"] == PrintExpr(r.trip)
    ensures f["induction_var"] == PrintIO(r.inductionVar) && "iv_name_template" in f
              && f["iv_name_template"] == Str(r.ivTemplate)
    ensures f["carry_placeholders"] == PrintIos(r.carryPlaceholders) && f["carry_init"] == PrintIos(r.carryInit)
    ensures f["carry_out"] == PrintIos(r.carryOut) && f["body"] == PrintProgram(r.body)
              && f["results"] == PrintIos(r.results)
  {
    hide PrintIO, PrintIos, PrintExpr, PrintProgram;
    f := PrintRegion(r).fields;
  }

  lemma LoopRoundTrip(r: Region)
    requires r.Loop? && (ParseProgram(PrintProgram(r.body)) == Ok(r.body) <==> ProgramPrintable(r.body))
    ensures ParseRegion(PrintRegion(r)) == Ok(r) <==> RegionPrintable(r)
  {
    hide PrintRegion, ParseIO, ParseExpr, ParseIos, ParseOps, PrintIO, PrintIos, PrintExpr, ProgramPrintable,
         PrintProgram;
    var f := PrintedLoop(r);
    ExprRoundTrip(r.trip);
    IORoundTrip(r.inductionVar);
    IosRoundTrip(r.carryPlaceholders);
    IosRoundTrip(r.carryInit);
    IosRoundTrip(r.carryOut);
    IosRoundTrip(r.results);
    assert FirstMissing(f, LOOPKEYS).None?;
    assert ParseRegion(PrintRegion(r)) == ParseLoop(Obj(f));
    var trip, body := ParseExpr(PrintExpr(r.trip)), ParseProgram(PrintProgram(r.body));
    if trip.Ok? && body.Ok? {
      assert ParseLoop(Obj(f)) == CheckLoop(r.(trip := trip.value, body := body.value));
    }
  }

  lemma PrintedCond(r: Region) returns (f: map<string, Json>)
    requires r.Cond?
    ensures PrintRegion(r) == Obj(f)
    ensures forall k | k in CONDKEYS :: k in f
    ensures "region_kind" in f && f["region_kind"] == Str("cond") && f["id"] == Str(r.id)
              && f["predicate"] == PrintExpr(r.predicate_)
    ensures f["then"] == PrintBranch(r.thenBody, r.thenResults)
    ensures f["results"] == PrintIos(r.results) && "else" in f
    ensures f["else"] == match r.elseBody
              case None => Null
              case Some(body) => PrintBranch(body, match r.elseResults case None => map[] case Some(ios) => ios)
  {
    hide PrintIO, PrintIos, PrintExpr, PrintProgram, PrintBranch;
    f := PrintRegion(r).fields;
  }

  lemma BranchRoundTrip(body: Program, results: Ios)
    ensures var payload := PrintBranch(body, results);
            && payload != Null && (ParseProgram(PrintProgram(body)).Ok? <==> ParseBranch(payload).Ok?)
            && (ParseBranch(payload).Ok? ==>
                ParseBranch(payload).value == (ParseProgram(PrintProgram(body)).value, results))
  {
    hide ParseIos, PrintIos, ParseProgram, PrintProgram;
    IosRoundTrip(results);
  }

  lemma CondRoundTrip(r: Region)
    requires r.Cond? && (ParseProgram(PrintProgram(r.thenBody)) == Ok(r.thenBody) <==> ProgramPrintable(r.thenBody))
    requires r.elseBody.Some? ==>
               (ParseProgram(PrintProgram(r.elseBody.value)) == Ok(r.elseBody.value) <==>
                ProgramPrintable(r.elseBody.value))
    ensures ParseRegion(PrintRegion(r)) == Ok(r) <==> RegionPrintable(r)
  {
    hide PrintRegion, ParseExpr, ParseIos, ParseProgram, ParseBranch, PrintBranch, PrintIos, PrintExpr,
         ProgramPrintable, PrintProgram;
    var f := PrintedCond(r);
    ExprRoundTrip(r.predicate_);
    BranchRoundTrip(r.thenBody, r.thenResults);
    IosRoundTrip(r.results);
    assert FirstMissing(f, CONDKEYS).None?;
    assert ParseRegion(PrintRegion(r)) == ParseCond(Obj(f));
    assert r.results.Keys == {} <==> r.results == map[];
    var predicate_, thenBody := ParseExpr(PrintExpr(r.predicate_)), ParseProgram(PrintProgram(r.thenBody));
    if predicate_.Err? || thenBody.Err? {
      assert ParseCond(Obj(f)).Err?;
    } else if r.elseBody.None? {
      assert ParseCond(Obj(f)) == CheckCond(Cond(r.id, predicate_.value, thenBody.value, r.thenResults, r.results, None,
                                                 None));
    } else {
      var elseResults: Ios := match r.elseResults case None => map[] case Some(ios) => ios;
      BranchRoundTrip(r.elseBody.value, elseResults);
      var elseBody := ParseProgram(PrintProgram(r.elseBody.value));
      if elseBody.Ok? {
        assert ParseCond(Obj(f)) ==
          CheckCond(Cond(r.id, predicate_.value, thenBody.value, r.thenResults, r.results, Some(elseBody.value),
                         Some(elseResults)));
      }
    }
  }

  // ---------------------------------------------------------------- what the parser lets through

  lemma {:induction false} ParsedOpPrintable(j: Json)
    requires ParseOp(j).Ok?
    ensures OpPrintable(ParseOp(j).value)
    decreases j, 0
  {
    if GetOr(j.fields, "op_kind", Null) == Str("region") { ParsedRegionPrintable(j.fields["region"]); }
  }

  lemma {:induction false} ParsedOpsPrintable(items: seq<Json>)
    requires ParseOps(items).Ok?
    ensures forall i | 0 <= i < |ParseOps(items).value| :: OpPrintable(ParseOps(items).value[i])
    decreases items, 2
  {
    if items != [] {
      ParsedOpPrintable(items[0]);
      ParsedOpsPrintable(items[1..]);
    }
  }

  lemma {:induction false} ParsedProgramPrintable(j: Json)
    requires ParseProgram(j).Ok?
    ensures ProgramPrintable(ParseProgram(j).value)
    decreases j, 0
  {
    ParsedOpsPrintable(j.items);
  }

  /** Whatever the parser accepts, from any dictionary at all, is printable. */
  lemma {:induction false} ParsedRegionPrintable(j: Json)
    requires ParseRegion(j).Ok?
    ensures RegionPrintable(ParseRegion(j).value)
    decreases j, 2
  {
    if GetOr(j.fields, "region_kind", Null) == Str("loop") { ParsedLoopPrintable(j); } else { ParsedCondPrintable(j); }
  }

  lemma {:induction false} ParsedLoopPrintable(j: Json)
    requires j.Obj? && ParseLoop(j).Ok?
    ensures RegionPrintable(ParseLoop(j).value)
    decreases j, 1
  {
    hide ParseIO, ParseExpr, ParseIos, ParseProgram, ExprOk, ProgramPrintable;
    assert LOOPKEYS[1] in j.fields && LOOPKEYS[6] in j.fields;
    ParsedExprOk(j.fields["trip_count"]);
    ParsedProgramPrintable(j.fields["body"]);
  }

  lemma {:induction false} ParsedCondPrintable(j: Json)
    requires j.Obj? && ParseCond(j).Ok?
    ensures RegionPrintable(ParseCond(j).value)
    decreases j, 1
  {
    hide ParseIO, ParseExpr, ParseIos, ParseProgram, ExprOk, ProgramPrintable;
    assert CONDKEYS[1] in j.fields && CONDKEYS[2] in j.fields;
    ParsedExprOk(j.fields["predicate"]);
    ParsedProgramPrintable(j.fields["then"].fields["body"]);
    if GetOr(j.fields, "else", Null) != Null { ParsedProgramPrintable(j.fields["else"].fields["body"]); }
  }

  /** One trip over the wire settles a region: printing and parsing what was parsed gives it back. */
  lemma ParsedRegionIsStable(j: Json)
    requires ParseRegion(j).Ok?
    ensures ParseRegion(PrintRegion(ParseRegion(j).value)) == ParseRegion(j)
  {
    ParsedRegionPrintable(j);
    RegionRoundTrip(ParseRegion(j).value);
  }

  // ---------------------------------------------------------------- what authors can build

  datatype BuildError =
    | EmptyCarry | NoIndexInTemplate | NothingReturned | CarryKeysChanged | BranchKeysDiffer | NoElseForResults

  function InductionVar(id: string): NodeIO {
    NodeIO(id + "_iv", "builtins.int", Some(INPUT), None, None, false)
  }

  function CarryPlaceholder(id: string, key: string, like: NodeIO): NodeIO {
    NodeIO(id + "_carry:" + key, like.dataType, Some(NODE), Some(id + "_carry"), like.size, like.lazy)
  }

  function RegionResult(id: string, key: string, like: NodeIO): NodeIO {
    NodeIO(id + ":" + key, like.dataType, Some(NODE), Some(id), like.size, like.lazy)
  }

  predicate Contains(s: string, part: string) {
    part <= s || (s != "" && Contains(s[1..], part))
  }

  /** for_range, given what tracing its body recorded and returned. */
  function ForRange(id: string, trip: Expr, carry: Ios, body: Program, returned: Option<Ios>, ivTemplate: string)
    : Result<Region, BuildError>
  {
    if carry == map[] then Err(EmptyCarry)
    else if !Contains(ivTemplate, "{i}") then Err(NoIndexInTemplate)
    else if returned.None? then Err(NothingReturned)
    else if returned.value.Keys != carry.Keys then Err(CarryKeysChanged)
    else
      Ok(Loop(id, trip, InductionVar(id), map k | k in carry ::
              CarryPlaceholder(id, k, carry[k]), carry, returned.value,
              body, map k | k in returned.value :: RegionResult(id, k, returned.value[k]), ivTemplate))
  }

  ghost predicate OccursAt(s: string, part: string, k: int) {
    0 <= k <= |s| - |part| && s[k..k + |part|] == part
  }

  lemma {:induction false} ContainsIsOccurs(s: string, part: string)
    ensures Contains(s, part) <==> exists k :: OccursAt(s, part, k)
  {
    if part <= s {
      assert OccursAt(s, part, 0);
    } else if s != "" {
      ContainsIsOccurs(s[1..], part);
      if k :| OccursAt(s[1..], part, k) { assert OccursAt(s, part, k + 1); }
      if k :| OccursAt(s, part, k) { assert OccursAt(s[1..], part, k - 1); }
    }
  }

  /** A loop can be built from something to carry, a template that names the index, and what is carried on. */
  lemma LoopsThatBuild(id: string, trip: Expr, carry: Ios, body: Program, returned: Option<Ios>, ivTemplate: string)
    ensures ForRange(id, trip, carry, body, returned, ivTemplate).Ok? <==>
              && carry.Keys != {} && returned.Some? && returned.value.Keys == carry.Keys
              && exists k :: OccursAt(ivTemplate, "{i}", k)
  {
    ContainsIsOccurs(ivTemplate, "{i}");
    assert carry.Keys == {} <==> carry == map[];
  }

  /** cond, given what tracing its branches recorded and returned; a branch that returns None returns nothing. */
  function CondOf(id: string, predicate_: Expr, thenBody: Program, thenReturned: Option<Ios>,
                  else_: Option<(Program, Option<Ios>)>): Result<Region, BuildError>
  {
    var thenResults: Ios := match thenReturned case None => map[] case Some(ios) => ios;
    var results: Ios := map k | k in thenResults :: RegionResult(id, k, thenResults[k]);
    match else_
    case None =>
      if thenResults != map[] then Err(NoElseForResults)
          else Ok(Cond(id, predicate_, thenBody, thenResults, results, None, None))
    case Some((elseBody, elseReturned)) =>
      var elseResults: Ios := match elseReturned case None => map[] case Some(ios) => ios;
      if elseResults.Keys != thenResults.Keys then Err(BranchKeysDiffer)
      else Ok(Cond(id, predicate_, thenBody, thenResults, results, Some(elseBody), Some(elseResults)))
  }

  /** A conditional can be built when the other branch, or having none, returns the same keys. */
  lemma CondsThatBuild(id: string, predicate_: Expr, thenBody: Program, thenReturned: Option<Ios>,
                       else_: Option<(Program, Option<Ios>)>)
    ensures CondOf(id, predicate_, thenBody, thenReturned, else_).Ok? <==>
              Returned(thenReturned) == if else_.Some? then Returned(else_.value.1) else {}
  {
    assert forall ios: Ios :: ios.Keys == {} <==> ios == map[];
  }

  function Returned(results: Option<Ios>): set<string> {
    if results.Some? then results.value.Keys else {}
  }

  /** A loop an author builds passes every key check and comes back as it was, exactly when its body does. */
  lemma BuiltLoopRoundTrip(id: string, trip: Expr, carry: Ios, body: Program, returned: Option<Ios>, ivTemplate: string)
    requires ExprOk(trip) && ForRange(id, trip, carry, body, returned, ivTemplate).Ok?
    ensures var r := ForRange(id, trip, carry, body, returned, ivTemplate).value;
            ParseRegion(PrintRegion(r)) == Ok(r) <==> ParseProgram(PrintProgram(body)) == Ok(body)
  {
    hide ParseRegion, PrintRegion, ParseProgram, PrintProgram, ExprOk, ProgramPrintable;
    var r := ForRange(id, trip, carry, body, returned, ivTemplate).value;
    ProgramRoundTrip(body);
    RegionRoundTrip(r);
  }

  lemma BuiltCondRoundTrip(id: string, predicate_: Expr, thenBody: Program, thenReturned: Option<Ios>,
                           else_: Option<(Program, Option<Ios>)>)
    requires ExprOk(predicate_) && CondOf(id, predicate_, thenBody, thenReturned, else_).Ok?
    ensures var r := CondOf(id, predicate_, thenBody, thenReturned, else_).value;
            ParseRegion(PrintRegion(r)) == Ok(r) <==>
              && ParseProgram(PrintProgram(thenBody)) == Ok(thenBody)
              && (else_.Some? ==> ParseProgram(PrintProgram(else_.value.0)) == Ok(else_.value.0))
  {
    hide ParseRegion, PrintRegion, ParseProgram, PrintProgram, ExprOk, ProgramPrintable;
    var r := CondOf(id, predicate_, thenBody, thenReturned, else_).value;
    ProgramRoundTrip(thenBody);
    if else_.Some? { ProgramRoundTrip(else_.value.0); }
    RegionRoundTrip(r);
  }
}
