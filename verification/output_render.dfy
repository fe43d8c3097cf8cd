/**
  Output rendering (pkg/output/output.go): the choice between table,
  tab-separated and JSON output, the JSON pipeline (field filter, then jq,
  then printing), the tab-separated lines, and the colourless texts of the
  error and success messages.

  What is printed is modelled as a value: the JSON value that is
  pretty-printed, the lines of the plaintext form, or the cells handed to the
  table writer. Indentation and the table layout are not modelled.
*/
module OutputRender {
  import opened Results
  import opened Text
  import opened JsonValues
  import opened OutputFields
  import opened OutputJq

  datatype Mode = Table | Plaintext | JsonMode

  datatype Options = Options(mode: Mode, noColor: bool, debug: bool, fields: seq<string>, jqExpr: string)

  /** The environment the renderer consults: the NO_COLOR variable and whether stdout is a terminal. */
  datatype Env = Env(noColorVar: string, stdoutIsTerminal: bool)

  datatype RenderError =
    | FieldsFilter(complaint: string)
    | JqExpression(cause: JqError)
    | JsonMarshal(complaint: string)

  function RenderErrorText(e: RenderError, quote: string -> string): string
  {
    match e
    case FieldsFilter(c) => "fields filter: " + c
    case JqExpression(cause) => "jq expression: " + JqErrorText(cause, quote)
    case JsonMarshal(c) => "json marshal: " + c
  }

  /** The field-filter step: skipped when no fields are requested. */
  function FilterStep(data: GoValue, fields: seq<string>): Result<GoValue, RenderError>
  {
    if |fields| > 0 then FilterFields(data, fields).MapErr(c => FieldsFilter(c)) else Ok(data)
  }

  /** The jq step: skipped when no expression is given; its result is plain JSON. */
  function JqStep(data: GoValue, expr: string, engine: JqEngine): Result<GoValue, RenderError>
  {
    if expr == "" then Ok(data)
    else match ApplyJq(data, expr, engine)
      case Err(e) => Err(JqExpression(e))
      case Ok(v) => Ok(Plain(v))
  }

  /** Printing: a value whose encoding fails cannot be printed. */
  function PrintStep(data: GoValue): Result<Json, RenderError>
  {
    match data
    case Plain(v) => Ok(v)
    case Custom(Ok(v)) => Ok(v)
    case Custom(Err(c)) => Err(JsonMarshal(c))
  }

  /** `renderJSONTo`: the JSON value printed, or the error that stopped it. */
  function RenderJsonTo(data: GoValue, opts: Options, engine: JqEngine): (r: Result<Json, RenderError>)
    ensures |opts.fields| > 0 && ToJsonValue(data).Err? ==>
      r == Err(FieldsFilter("normalize for field filter: " + ToJsonValue(data).error))
    ensures r.Err? && r.error.JqExpression? ==> opts.jqExpr != ""
    ensures r.Err? && r.error.FieldsFilter? ==> |opts.fields| > 0
    ensures |opts.fields| == 0 && opts.jqExpr == "" && data.Plain? ==> r == Ok(data.v)
    ensures |opts.fields| == 0 && opts.jqExpr != "" ==>
      (r.Err? <==> ApplyJq(data, opts.jqExpr, engine).Err?)
      && (r.Err? ==> r.error == JqExpression(ApplyJq(data, opts.jqExpr, engine).error))
      && (r.Ok? ==> r.value == ApplyJq(data, opts.jqExpr, engine).value)
  {
    match FilterStep(data, opts.fields)
    case Err(e) => Err(e)
    case Ok(filtered) =>
      match JqStep(filtered, opts.jqExpr, engine)
      case Err(e) => Err(e)
      case Ok(queried) => PrintStep(queried)
  }

  /**
    The field filter runs first and jq sees its result: with both set, the
    output is jq applied to the filtered value.
  */
  lemma FieldsBeforeJq(data: GoValue, opts: Options, engine: JqEngine, normalized: Json)
    requires |opts.fields| > 0 && opts.jqExpr != ""
    requires ToJsonValue(data) == Ok(normalized)
    ensures RenderJsonTo(data, opts, engine)
         == ApplyJq(Plain(ApplyFieldFilter(normalized, opts.fields)), opts.jqExpr, engine).MapErr(e => JqExpression(e))
  {
  }

  /** With a compiled program, jq runs on exactly the filtered value. */
  lemma JqSeesFilteredValue(data: GoValue, opts: Options, engine: JqEngine, normalized: Json,
                            run: Json -> seq<JqItem>, values: seq<Json>)
    requires |opts.fields| > 0 && engine(opts.jqExpr) == Compiled(run) && opts.jqExpr != ""
    requires ToJsonValue(data) == Ok(normalized)
    requires var input := ApplyFieldFilter(normalized, opts.fields);
      |run(input)| == |values| && forall i | 0 <= i < |values| :: run(input)[i] == Emit(values[i])
    ensures RenderJsonTo(data, opts, engine) == Ok(Collapse(values))
  {
    FieldsBeforeJq(data, opts, engine, normalized);
    ApplyJqEmits(Plain(ApplyFieldFilter(normalized, opts.fields)), opts.jqExpr, engine,
                 ApplyFieldFilter(normalized, opts.fields), run, values);
  }

  /** Without jq, the printed value is the filtered value. */
  lemma FieldsOnly(data: GoValue, opts: Options, engine: JqEngine, normalized: Json)
    requires |opts.fields| > 0 && opts.jqExpr == ""
    requires ToJsonValue(data) == Ok(normalized)
    ensures RenderJsonTo(data, opts, engine) == Ok(ApplyFieldFilter(normalized, opts.fields))
  {
  }

  /**
    Jq without fields: the data goes to jq as it is, a jq failure surfaces as a
    "jq expression" error, and otherwise jq's collapsed output is printed.
  */
  lemma JqOnly(data: GoValue, opts: Options, engine: JqEngine)
    requires |opts.fields| == 0 && opts.jqExpr != ""
    ensures RenderJsonTo(data, opts, engine) == ApplyJq(data, opts.jqExpr, engine).MapErr(e => JqExpression(e))
  {
  }

  /** Neither fields nor jq: the data is printed as it is, failing only when it cannot be encoded. */
  lemma NeitherFieldsNorJq(data: GoValue, opts: Options, engine: JqEngine)
    requires |opts.fields| == 0 && opts.jqExpr == ""
    ensures RenderJsonTo(data, opts, engine) == PrintStep(data)
    ensures RenderJsonTo(data, opts, engine).Err? <==> data.Custom? && data.encoding.Err?
  {
  }

  /** A field-filter failure stops the pipeline before jq: the engine is never consulted. */
  lemma FilterFailureSkipsJq(data: GoValue, opts: Options, engine1: JqEngine, engine2: JqEngine)
    requires |opts.fields| > 0 && ToJsonValue(data).Err?
    ensures RenderJsonTo(data, opts, engine1) == RenderJsonTo(data, opts, engine2)
    ensures RenderJsonTo(data, opts, engine1).Err? && RenderJsonTo(data, opts, engine1).error.FieldsFilter?
  {
  }

  // ---------------------------------------------------------------------------
  // Plaintext
  // ---------------------------------------------------------------------------

  const Tab := "\t"

  /** The lines `renderPlaintext` writes: the headers if any, then one line per row. */
  function PlaintextLines(headers: seq<string>, rows: seq<seq<string>>): (lines: seq<string>)
    ensures |lines| == |rows| + (if |headers| > 0 then 1 else 0)
  {
    (if |headers| > 0 then [Join(headers, Tab)] else [])
    + seq(|rows|, i requires 0 <= i < |rows| => Join(rows[i], Tab))
  }

  /** The text written: every line ends in a newline. */
  function Terminated(lines: seq<string>): string
  {
    if |lines| == 0 then "" else lines[0] + "\n" + Terminated(lines[1..])
  }

  /** The header line comes first, and only when there are headers; row `i` follows in order. */
  lemma PlaintextLayout(headers: seq<string>, rows: seq<seq<string>>, i: nat)
    requires i < |rows|
    ensures |headers| > 0 ==> PlaintextLines(headers, rows)[0] == Join(headers, Tab)
    ensures PlaintextLines(headers, rows)[i + (if |headers| > 0 then 1 else 0)] == Join(rows[i], Tab)
  {
  }

  /** A cell free of tabs and newlines, as the plaintext form needs to stay readable. */
  predicate PlainCell(cell: string) { '\t' !in cell && '\n' !in cell }

  /** A row's cells can be read back from its line by splitting at tabs. */
  lemma PlaintextRowRoundTrip(headers: seq<string>, rows: seq<seq<string>>, i: nat)
    requires i < |rows| && |rows[i]| > 0
    requires forall k | 0 <= k < |rows[i]| :: PlainCell(rows[i][k])
    ensures SplitOn(PlaintextLines(headers, rows)[i + (if |headers| > 0 then 1 else 0)], '\t') == rows[i]
  {
    PlaintextLayout(headers, rows, i);
    SplitJoin(rows[i], '\t');
  }

  /** A row without cells prints the same line as a row holding one empty cell. */
  lemma EmptyRowsConflate()
    ensures PlaintextLines([], [[]]) == PlaintextLines([], [[""]])
  {
  }

  lemma {:induction false} JoinWithout(parts: seq<string>, sep: string, c: char)
    requires c !in sep
    requires forall k | 0 <= k < |parts| :: c !in parts[k]
    ensures c !in Join(parts, sep)
    decreases |parts|
  {
    if |parts| > 1 {
      JoinWithout(parts[1..], sep, c);
    }
  }

  lemma {:induction false} TerminatedCount(lines: seq<string>)
    requires forall k | 0 <= k < |lines| :: '\n' !in lines[k]
    ensures Count(Terminated(lines), '\n') == |lines|
    decreases |lines|
  {
    if |lines| > 0 {
      TerminatedCount(lines[1..]);
      CountAbsent(lines[0], '\n');
      CountAppend(lines[0], "\n", '\n');
      CountAppend(lines[0] + "\n", Terminated(lines[1..]), '\n');
    }
  }

  /**
    The plaintext text holds exactly one newline per row, plus one for the
    header line when there are headers, provided no cell holds a newline.
  */
  lemma PlaintextLineCount(headers: seq<string>, rows: seq<seq<string>>)
    requires forall k | 0 <= k < |headers| :: PlainCell(headers[k])
    requires forall i, k | 0 <= i < |rows| && 0 <= k < |rows[i]| :: PlainCell(rows[i][k])
    ensures Count(Terminated(PlaintextLines(headers, rows)), '\n') == |rows| + (if |headers| > 0 then 1 else 0)
  {
    var lines := PlaintextLines(headers, rows);
    forall j | 0 <= j < |lines| ensures '\n' !in lines[j] {
      if |headers| > 0 && j == 0 {
        JoinWithout(headers, Tab, '\n');
      } else {
        var i := j - (if |headers| > 0 then 1 else 0);
        PlaintextLayout(headers, rows, i);
        JoinWithout(rows[i], Tab, '\n');
      }
    }
    TerminatedCount(lines);
  }

  // ---------------------------------------------------------------------------
  // Mode dispatch
  // ---------------------------------------------------------------------------

  /** What a `RenderTable` call produces. */
  datatype Rendered =
    | JsonText(value: Json)
    | Lines(lines: seq<string>)
    | Grid(headers: seq<string>, rows: seq<seq<string>>, coloredHeaders: bool)

  /** `shouldColor`: NO_COLOR unset or empty, and stdout a terminal. */
  predicate ShouldColor(env: Env)
  {
    env.noColorVar == "" && env.stdoutIsTerminal
  }

  /** `RenderTable`: JSON mode prints the raw data, the other modes the headers and rows. */
  function RenderTable(headers: seq<string>, rows: seq<seq<string>>, raw: GoValue, opts: Options,
                       engine: JqEngine, env: Env): (r: Result<Rendered, RenderError>)
    ensures opts.mode.JsonMode? ==> (r.Ok? <==> RenderJsonTo(raw, opts, engine).Ok?)
    ensures opts.mode.JsonMode? && r.Ok? ==> r.value == JsonText(RenderJsonTo(raw, opts, engine).value)
    ensures opts.mode.Plaintext? ==> r == Ok(Lines(PlaintextLines(headers, rows)))
    ensures opts.mode.Table? ==> r.Ok? && r.value.Grid? && r.value.headers == headers && r.value.rows == rows
    ensures opts.mode.Table? ==> (r.value.coloredHeaders <==> !opts.noColor && ShouldColor(env))
  {
    match opts.mode
    case JsonMode =>
      (match RenderJsonTo(raw, opts, engine)
       case Err(e) => Err(e)
       case Ok(v) => Ok(JsonText(v)))
    case Plaintext => Ok(Lines(PlaintextLines(headers, rows)))
    case Table => Ok(Grid(headers, rows, !opts.noColor && ShouldColor(env)))
  }

  /** JSON mode ignores headers and rows. */
  lemma JsonModeIgnoresRows(h1: seq<string>, r1: seq<seq<string>>, h2: seq<string>, r2: seq<seq<string>>,
                            raw: GoValue, opts: Options, engine: JqEngine, env: Env)
    requires opts.mode.JsonMode?
    ensures RenderTable(h1, r1, raw, opts, engine, env) == RenderTable(h2, r2, raw, opts, engine, env)
  {
  }

  /** The other modes ignore the raw data, the fields and the jq expression. */
  lemma TextModesIgnoreData(headers: seq<string>, rows: seq<seq<string>>, raw1: GoValue, raw2: GoValue,
                            opts: Options, fields: seq<string>, expr: string, engine: JqEngine, env: Env)
    requires !opts.mode.JsonMode?
    ensures RenderTable(headers, rows, raw1, opts, engine, env)
         == RenderTable(headers, rows, raw2, opts.(fields := fields, jqExpr := expr), engine, env)
  {
  }

  // ---------------------------------------------------------------------------
  // Messages
  // ---------------------------------------------------------------------------

  /** Colour is off when the first options value asks so, or NO_COLOR is set; the terminal is not consulted. */
  predicate MessagesUncolored(opts: seq<Options>, noColorVar: string)
  {
    (|opts| > 0 && opts[0].noColor) || noColorVar != ""
  }

  /** A status line: the tag, painted unless colour is off, a space, the message and a newline. */
  function Labelled(tag: string, msg: string, opts: seq<Options>, noColorVar: string, paint: string -> string): (r: string)
    ensures MessagesUncolored(opts, noColorVar) ==> r == tag + " " + msg + "\n"
    ensures !MessagesUncolored(opts, noColorVar) ==> r == paint(tag) + " " + msg + "\n"
  {
    (if MessagesUncolored(opts, noColorVar) then tag else paint(tag)) + " " + msg + "\n"
  }

  /** The text `Error` writes to stderr; `paint` is the red colouring. */
  function ErrorText(msg: string, opts: seq<Options>, noColorVar: string, paint: string -> string): (r: string)
    ensures MessagesUncolored(opts, noColorVar) ==> r == "Error: " + msg + "\n"
    ensures !MessagesUncolored(opts, noColorVar) ==> r == paint("Error:") + " " + msg + "\n"
  {
    assert "Error:" + " " == "Error: ";
    Labelled("Error:", msg, opts, noColorVar, paint)
  }

  /** The text `Success` writes to stderr; `paint` is the green colouring. */
  function SuccessText(msg: string, opts: seq<Options>, noColorVar: string, paint: string -> string): (r: string)
    ensures MessagesUncolored(opts, noColorVar) ==> r == "OK: " + msg + "\n"
    ensures !MessagesUncolored(opts, noColorVar) ==> r == paint("OK:") + " " + msg + "\n"
  {
    assert "OK:" + " " == "OK: ";
    Labelled("OK:", msg, opts, noColorVar, paint)
  }

  /**
    Uncoloured, both messages end with the message and a newline, the message
    can be read back, and an error can never be mistaken for a success.
  */
  lemma UncoloredMessages(m1: string, m2: string, opts: seq<Options>, noColorVar: string, paint: string -> string)
    requires MessagesUncolored(opts, noColorVar)
    ensures var e := ErrorText(m1, opts, noColorVar, paint); e[7..|e| - 1] == m1
    ensures var s := SuccessText(m1, opts, noColorVar, paint); s[4..|s| - 1] == m1
    ensures ErrorText(m1, opts, noColorVar, paint) != SuccessText(m2, opts, noColorVar, paint)
    ensures ErrorText(m1, opts, noColorVar, paint) == ErrorText(m2, opts, noColorVar, paint) <==> m1 == m2
  {
    var e1 := ErrorText(m1, opts, noColorVar, paint);
    var e2 := ErrorText(m2, opts, noColorVar, paint);
    assert e1[0] == 'E' && SuccessText(m2, opts, noColorVar, paint)[0] == 'O';
    assert e1[7..|e1| - 1] == m1;
    assert e2[7..|e2| - 1] == m2;
  }
}
