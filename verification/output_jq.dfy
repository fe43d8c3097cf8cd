/**
  Applying a jq expression to output (pkg/output/jq.go). The jq engine itself
  is a parameter: for an expression it either rejects it while parsing or
  compiling, or yields a program that maps an input to the stream of items
  its iterator produces, each a value or an error.
*/
module OutputJq {
  import opened Results
  import opened JsonValues
  import opened OutputFields

  /** One item of a jq result stream. */
  datatype JqItem = Emit(value: Json) | Raise(complaint: string)

  /** What the engine makes of an expression. */
  datatype JqProgram =
    | ParseFailure(complaint: string)
    | CompileFailure(complaint: string)
    | Compiled(run: Json -> seq<JqItem>)

  /** gojq's Parse followed by Compile. */
  type JqEngine = string -> JqProgram

  /** The failures `applyJQ` reports, in the order it can meet them. */
  datatype JqError =
    | NormalizeForJq(complaint: string)
    | ParseExpression(expr: string, complaint: string)
    | CompileExpression(expr: string, complaint: string)
    | Evaluation(complaint: string)

  /** The error text; `quote` is Go's `%q` rendering of the expression. */
  function JqErrorText(e: JqError, quote: string -> string): string
  {
    match e
    case NormalizeForJq(c) => "normalize for jq: " + c
    case ParseExpression(x, c) => "parse jq expression " + quote(x) + ": " + c
    case CompileExpression(x, c) => "compile jq expression " + quote(x) + ": " + c
    case Evaluation(c) => "jq evaluation: " + c
  }

  /**
    Draining the iterator: the values in order, or the first error raised,
    in which case no value is kept.
  */
  function Collect(items: seq<JqItem>): (r: Result<seq<Json>, string>)
    ensures r.Ok? <==> forall i | 0 <= i < |items| :: items[i].Emit?
    ensures r.Ok? ==> |r.value| == |items| && forall i | 0 <= i < |items| :: r.value[i] == items[i].value
    ensures r.Err? ==> exists i | 0 <= i < |items| ::
      items[i].Raise? && r.error == items[i].complaint && forall j | 0 <= j < i :: items[j].Emit?
  {
    if |items| == 0 then Ok([])
    else match items[0]
      case Raise(c) => Err(c)
      case Emit(v) =>
        match Collect(items[1..])
        case Err(c) => Err(c)
        case Ok(vs) => Ok([v] + vs)
  }

  /** The result rule: no output is `null`, one output is itself, several are an array of them. */
  function Collapse(results: seq<Json>): Json
  {
    match |results|
    case 0 => JNull
    case 1 => results[0]
    case _ => JArray(results)
  }

  /** `applyJQ`: normalise, parse, compile, run, collect, collapse. */
  function ApplyJq(data: GoValue, expr: string, engine: JqEngine): (r: Result<Json, JqError>)
    ensures ToJsonValue(data).Err? ==> r == Err(NormalizeForJq(ToJsonValue(data).error))
    ensures ToJsonValue(data).Ok? && engine(expr).ParseFailure? ==> r == Err(ParseExpression(expr, engine(expr).complaint))
    ensures ToJsonValue(data).Ok? && engine(expr).CompileFailure? ==> r == Err(CompileExpression(expr, engine(expr).complaint))
    ensures r.Ok? ==> (
      && ToJsonValue(data).Ok? && engine(expr).Compiled?
      && Collect(engine(expr).run(ToJsonValue(data).value)).Ok?
      && r.value == Collapse(Collect(engine(expr).run(ToJsonValue(data).value)).value))
  {
    match ToJsonValue(data)
    case Err(e) => Err(NormalizeForJq(e))
    case Ok(normalized) =>
      match engine(expr)
      case ParseFailure(c) => Err(ParseExpression(expr, c))
      case CompileFailure(c) => Err(CompileExpression(expr, c))
      case Compiled(run) =>
        match Collect(run(normalized))
        case Err(c) => Err(Evaluation(c))
        case Ok(results) => Ok(Collapse(results))
  }

  /** The program sees the normalised value, and its emitted values decide the result. */
  lemma ApplyJqEmits(data: GoValue, expr: string, engine: JqEngine, normalized: Json, run: Json -> seq<JqItem>, values: seq<Json>)
    requires ToJsonValue(data) == Ok(normalized) && engine(expr) == Compiled(run)
    requires |run(normalized)| == |values| && forall i | 0 <= i < |values| :: run(normalized)[i] == Emit(values[i])
    ensures ApplyJq(data, expr, engine) == Ok(Collapse(values))
    ensures |values| == 0 ==> ApplyJq(data, expr, engine) == Ok(JNull)
    ensures |values| == 1 ==> ApplyJq(data, expr, engine) == Ok(values[0])
    ensures |values| >= 2 ==> ApplyJq(data, expr, engine) == Ok(JArray(values))
  {
    var c := Collect(run(normalized));
    assert c.Ok?;
    assert c.value == values;
  }

  /** An error anywhere in the stream fails the whole expression, however many values came before it. */
  lemma ApplyJqRaises(data: GoValue, expr: string, engine: JqEngine, normalized: Json, run: Json -> seq<JqItem>, i: nat)
    requires ToJsonValue(data) == Ok(normalized) && engine(expr) == Compiled(run)
    requires i < |run(normalized)| && run(normalized)[i].Raise?
    ensures ApplyJq(data, expr, engine).Err? && ApplyJq(data, expr, engine).error.Evaluation?
  {
    assert !Collect(run(normalized)).Ok?;
  }

  /**
    Collapsing loses information: a single array output and the same values
    emitted one by one give the same result, and so do a single `null` and no
    output at all.
  */
  lemma CollapseConflates(a: Json, b: Json)
    ensures Collapse([JArray([a, b])]) == Collapse([a, b])
    ensures Collapse([JNull]) == Collapse([])
  {
  }

  /** From two outputs on, the result lists every output in emission order. */
  lemma CollapseKeepsOrder(results: seq<Json>, i: nat)
    requires 2 <= |results| && i < |results|
    ensures Collapse(results).JArray? && Collapse(results).items[i] == results[i]
  {
  }
}
