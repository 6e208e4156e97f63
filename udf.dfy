/**
 * BigQuery user-defined functions as the Python library declares them: a UDF
 * (its input and output schema, its name and its JavaScript implementation)
 * renders, when it is constructed, the JavaScript that registers it with
 * `bigquery.defineFunction`; applying it to a query or table gives a
 * FunctionCall holding the SQL that invokes it, and applying it to a list
 * gives a FunctionEvaluation holding the implementation and that list.
 */
module BigQueryUdf {
  import opened Wrappers
  import opened Text
  import Json

  // ---------------------------------------------------------------------
  // Values
  // ---------------------------------------------------------------------

  /**
   * A schema entry, as the builders use it: a Python sequence that they
   * index with `f[0]` (and, for outputs, `f[1]`). A `(name, type)` tuple is
   * the sequence of its two strings; a plain string is the sequence of its
   * one-character strings, so that `f[0]` is its first character.
   */
  type Field = seq<string>

  /** The field a `(name, type)` tuple makes. */
  function TupleField(name: string, typ: string): (f: Field)
    ensures |f| == 2 && f[0] == name && f[1] == typ
  {
    [name, typ]
  }

  /** The field a plain string makes: indexing it gives one character. */
  function StrField(s: string): (f: Field)
    ensures |f| == |s| && forall i :: 0 <= i < |s| ==> f[i] == [s[i]]
  {
    if s == [] then [] else [[s[0]]] + StrField(s[1..])
  }

  /** What the builders can raise: indexing a field too short, or an argument without `_repr_sql_`. */
  datatype Error = IndexError | AttributeError

  /** The UDF's fields; `code` is the JavaScript rendered at construction. */
  datatype Udf = Udf(
    inputs: seq<Field>,
    outputs: seq<Field>,
    name: string,
    implementation: string,
    imports: Option<seq<string>>,
    code: string)
  {
    /** `_repr_code_()`: the JavaScript rendered at construction. */
    function ReprCode(): string
    {
      code
    }

    /** `__repr_js__()`: the implementation as given, unescaped. */
    function ReprJs(): string
    {
      implementation
    }

    /** The state `__init__` leaves: `code` is what `_build_js` renders from the other fields. */
    predicate Valid()
    {
      BuildJs(inputs, outputs, name, implementation) == Ok(code)
    }
  }

  /** A UDF invocation: the UDF and the SQL built when the call was made. */
  datatype FunctionCall = FunctionCall(udf: Udf, sql: string)
  {
    /** `_repr_sql_()`: the SQL to embed in a larger statement. */
    function ReprSql(): string
    {
      sql
    }

    /** `_repr_code_()`: the called UDF's JavaScript. */
    function ReprCode(): string
    {
      udf.ReprCode()
    }

    /** The `js` property. */
    function Js(): string
    {
      ReprCode()
    }
  }

  /** A UDF applied to an in-memory list: the implementation text and the list. */
  datatype FunctionEvaluation<D> = FunctionEvaluation(implementation: string, data: seq<D>)

  /**
   * What a UDF can be applied to: a list (or a list subclass), or any other
   * object; `reprSql` is what that object's `_repr_sql_()` returns, `None`
   * when it has no such method.
   */
  datatype Argument<D> = ListArg(items: seq<D>) | ObjectArg(reprSql: Option<string>)

  /** What applying a UDF gives. */
  datatype Invocation<D> = Evaluation(evaluation: FunctionEvaluation<D>) | Call(call: FunctionCall)

  // ---------------------------------------------------------------------
  // Builders
  // ---------------------------------------------------------------------

  /** `[f[0] for f in fields]`. */
  function FirstComponents(fields: seq<Field>): (r: Result<seq<string>, Error>)
    ensures r.Ok? <==> forall i :: 0 <= i < |fields| ==> |fields[i]| >= 1
    ensures r.Err? ==> r.error == IndexError
    ensures r.Ok? ==> |r.value| == |fields| && forall i :: 0 <= i < |fields| ==> r.value[i] == fields[i][0]
  {
    if fields == [] then Ok([])
    else if |fields[0]| == 0 then Err(IndexError)
    else
      match FirstComponents(fields[1..])
      case Err(e) => Err(e)
      case Ok(rest) => Ok([fields[0][0]] + rest)
  }

  /** `[{'name': f[0], 'type': f[1]} for f in outputs]`, each dictionary as its members in insertion order. */
  function OutputSchema(outputs: seq<Field>): (r: Result<seq<seq<Json.Member>>, Error>)
    ensures r.Ok? <==> forall i :: 0 <= i < |outputs| ==> |outputs[i]| >= 2
    ensures r.Err? ==> r.error == IndexError
    ensures r.Ok? ==> (|r.value| == |outputs| &&
      forall i :: 0 <= i < |outputs| ==> r.value[i] == [("name", outputs[i][0]), ("type", outputs[i][1])])
  {
    if outputs == [] then Ok([])
    else if |outputs[0]| < 2 then Err(IndexError)
    else
      match OutputSchema(outputs[1..])
      case Err(e) => Err(e)
      case Ok(rest) => Ok([[("name", outputs[0][0]), ("type", outputs[0][1])]] + rest)
  }

  /**
   * `FunctionCall._build_sql`: `(SELECT <output names> FROM <name>(<data's SQL>))`.
   * The output names are joined first, so a short output field raises before
   * the argument is asked for its SQL.
   */
  function BuildSql(name: string, outputs: seq<Field>, reprSql: Option<string>): (r: Result<string, Error>)
    ensures r.Ok? <==> (forall i :: 0 <= i < |outputs| ==> |outputs[i]| >= 1) && reprSql.Some?
    ensures r == Err(IndexError) <==> exists i :: 0 <= i < |outputs| && |outputs[i]| == 0
    ensures r == Err(AttributeError) <==> (forall i :: 0 <= i < |outputs| ==> |outputs[i]| >= 1) && reprSql.None?
  {
    match FirstComponents(outputs)
    case Err(e) => Err(e)
    case Ok(columns) =>
      match reprSql
      case None => Err(AttributeError)
      case Some(sql) => Ok("(SELECT " + Join(", ", columns) + " FROM " + name + "(" + sql + "))")
  }

  /** `implementation.replace('"', '\\"')`. */
  function EscapeQuotes(implementation: string): string
  {
    Replace(implementation, "\"", "\\\"")
  }

  /** `json.dumps([f[0] for f in inputs])`. */
  function InputFieldsJson(inputs: seq<Field>): (r: Result<string, Error>)
    ensures r.Ok? <==> forall i :: 0 <= i < |inputs| ==> |inputs[i]| >= 1
  {
    match FirstComponents(inputs)
    case Err(e) => Err(e)
    case Ok(names) => Ok(Json.DumpStringList(names))
  }

  /** `json.dumps([{'name': f[0], 'type': f[1]} for f in outputs], sort_keys=True)`. */
  function OutputFieldsJson(outputs: seq<Field>): (r: Result<string, Error>)
    ensures r.Ok? <==> forall i :: 0 <= i < |outputs| ==> |outputs[i]| >= 2
  {
    match OutputSchema(outputs)
    case Err(e) => Err(e)
    case Ok(schema) => Ok(Json.DumpObjectList(schema))
  }

  /**
   * `UDF._build_js`: `<name>=<implementation, quotes escaped>;` and, on the
   * next line, `bigquery.defineFunction('<name>', <inputs JSON>, <outputs JSON>, <name>);`.
   */
  function BuildJs(inputs: seq<Field>, outputs: seq<Field>, name: string, implementation: string): (r: Result<string, Error>)
    ensures r.Ok? <==> (forall i :: 0 <= i < |inputs| ==> |inputs[i]| >= 1) && (forall i :: 0 <= i < |outputs| ==> |outputs[i]| >= 2)
    ensures r.Err? ==> r.error == IndexError
  {
    match InputFieldsJson(inputs)
    case Err(e) => Err(e)
    case Ok(inputJson) =>
      match OutputFieldsJson(outputs)
      case Err(e) => Err(e)
      case Ok(outputJson) =>
        Ok(name + "=" + EscapeQuotes(implementation) + ";\nbigquery.defineFunction('" + name + "', "
           + inputJson + ", " + outputJson + ", " + name + ");")
  }

  // ---------------------------------------------------------------------
  // Construction and application
  // ---------------------------------------------------------------------

  /** `UDF(inputs, outputs, name, implementation, imports)`: stores the fields and renders the code once. */
  function NewUdf(inputs: seq<Field>, outputs: seq<Field>, name: string, implementation: string,
                  imports: Option<seq<string>>): (r: Result<Udf, Error>)
    ensures r.Ok? <==> BuildJs(inputs, outputs, name, implementation).Ok?
    ensures r.Err? ==> r.error == IndexError
    ensures r.Ok? ==> r.value.Valid()
    ensures r.Ok? ==> (r.value.inputs == inputs && r.value.outputs == outputs && r.value.name == name
      && r.value.implementation == implementation && r.value.imports == imports)
  {
    match BuildJs(inputs, outputs, name, implementation)
    case Err(e) => Err(e)
    case Ok(code) => Ok(Udf(inputs, outputs, name, implementation, imports, code))
  }

  /** `FunctionCall(udf, data)`: keeps the UDF and builds the SQL once. */
  function NewFunctionCall(udf: Udf, reprSql: Option<string>): (r: Result<FunctionCall, Error>)
    ensures r.Ok? <==> BuildSql(udf.name, udf.outputs, reprSql).Ok?
    ensures r.Err? ==> BuildSql(udf.name, udf.outputs, reprSql) == Err(r.error)
    ensures r.Ok? ==> r.value.udf == udf && Ok(r.value.sql) == BuildSql(udf.name, udf.outputs, reprSql)
  {
    match BuildSql(udf.name, udf.outputs, reprSql)
    case Err(e) => Err(e)
    case Ok(sql) => Ok(FunctionCall(udf, sql))
  }

  /** `udf(data)`: a list gives an evaluation of the implementation over it, anything else a call. */
  function Apply<D>(udf: Udf, data: Argument<D>): (r: Result<Invocation<D>, Error>)
    ensures data.ListArg? ==> r == Ok(Evaluation(FunctionEvaluation(udf.implementation, data.items)))
    ensures data.ObjectArg? ==> (r.Ok? <==> NewFunctionCall(udf, data.reprSql).Ok?)
    ensures data.ObjectArg? && r.Ok? ==> (r.value.Call? && r.value.call.udf == udf
      && Ok(r.value.call.sql) == BuildSql(udf.name, udf.outputs, data.reprSql))
    ensures data.ObjectArg? && r.Err? ==> BuildSql(udf.name, udf.outputs, data.reprSql) == Err(r.error)
  {
    match data
    case ListArg(items) => Ok(Evaluation(FunctionEvaluation(udf.implementation, items)))
    case ObjectArg(reprSql) =>
      match NewFunctionCall(udf, reprSql)
      case Err(e) => Err(e)
      case Ok(call) => Ok(Call(call))
  }

  // ---------------------------------------------------------------------
  // The SQL fragment
  // ---------------------------------------------------------------------

  /**
   * The fragment opens with `(SELECT `, closes with `))`, and holds the
   * argument's SQL verbatim just before the close, preceded by ` FROM `, the
   * UDF's name and an opening parenthesis.
   */
  lemma SqlSandwich(name: string, outputs: seq<Field>, sql: string)
    requires BuildSql(name, outputs, Some(sql)).Ok?
    ensures var q := BuildSql(name, outputs, Some(sql)).value;
      |q| >= |name| + |sql| + 17 &&
      q[..8] == "(SELECT " &&
      q[|q| - 2..] == "))" &&
      q[|q| - 2 - |sql|..|q| - 2] == sql &&
      q[|q| - 9 - |name| - |sql|..|q| - 2 - |sql|] == " FROM " + name + "("
  {
    var columns := FirstComponents(outputs).value;
    var cols := Join(", ", columns);
    var q := BuildSql(name, outputs, Some(sql)).value;
    assert q == "(SELECT " + cols + " FROM " + name + "(" + sql + "))";
    var n := |q|;
    assert q[..8] == "(SELECT ";
    assert q[n - 2..] == "))";
    assert q[n - 2 - |sql|..n - 2] == sql;
    assert q[n - 9 - |name| - |sql|..n - 2 - |sql|] == " FROM " + name + "(";
  }

  /**
   * Between `(SELECT ` and ` FROM ` stand the output names in declared
   * order: splitting that text at ", " gives them back, one per output, when
   * no name holds a comma.
   */
  lemma SqlColumnsInOrder(name: string, outputs: seq<Field>, sql: string)
    requires BuildSql(name, outputs, Some(sql)).Ok?
    requires |outputs| > 0
    requires forall i :: 0 <= i < |outputs| ==> ',' !in outputs[i][0]
    ensures var q := BuildSql(name, outputs, Some(sql)).value;
      |q| >= |name| + |sql| + 17 &&
      var columns := Split(q[8..|q| - 9 - |name| - |sql|], ", ");
      |columns| == |outputs| && forall i :: 0 <= i < |outputs| ==> columns[i] == outputs[i][0]
  {
    var names := FirstComponents(outputs).value;
    var cols := Join(", ", names);
    var q := BuildSql(name, outputs, Some(sql)).value;
    assert q == "(SELECT " + cols + " FROM " + name + "(" + sql + "))";
    assert q[8..|q| - 9 - |name| - |sql|] == cols;
    SplitJoin(", ", names);
  }

  /** With no outputs the text between `(SELECT ` and ` FROM ` is empty. */
  lemma SqlNoColumns(name: string, sql: string)
    ensures BuildSql(name, [], Some(sql)).Ok?
    ensures var q := BuildSql(name, [], Some(sql)).value;
      |q| == |name| + |sql| + 17 && q[8..|q| - 9 - |name| - |sql|] == ""
  {
    assert FirstComponents([]) == Ok([]);
    var q := BuildSql(name, [], Some(sql)).value;
    assert q == "(SELECT " + "" + " FROM " + name + "(" + sql + "))";
  }

  // ---------------------------------------------------------------------
  // Escaping the implementation
  // ---------------------------------------------------------------------

  /** Reference for the escaping: a backslash inserted before each `"`, every other character kept. */
  function BackslashBeforeQuotes(s: string): string
  {
    if s == [] then ""
    else (if s[0] == '"' then "\\\"" else [s[0]]) + BackslashBeforeQuotes(s[1..])
  }

  /** `replace('"', '\\"')` is the character-by-character insertion of a backslash before each quote. */
  lemma {:induction false} EscapeQuotesInsertsBackslashes(s: string)
    ensures EscapeQuotes(s) == BackslashBeforeQuotes(s)
    decreases |s|
  {
    if s != [] {
      EscapeQuotesInsertsBackslashes(s[1..]);
      assert s[..1] == [s[0]];
    }
  }

  /** The escaped text is longer by exactly the number of quotes. */
  lemma {:induction false} EscapeQuotesLength(s: string)
    ensures |EscapeQuotes(s)| == |s| + Count(s, '"')
    decreases |s|
  {
    EscapeQuotesInsertsBackslashes(s);
    if s != [] {
      EscapeQuotesLength(s[1..]);
      EscapeQuotesInsertsBackslashes(s[1..]);
    }
  }

  /** The escaped text never starts with a quote: each quote in it follows an inserted backslash. */
  lemma BackslashBeforeQuotesHead(s: string)
    ensures |BackslashBeforeQuotes(s)| > 0 ==> BackslashBeforeQuotes(s)[0] != '"'
  {
  }

  /** Replacing each `\"` by `"`, left to right, restores the implementation. */
  lemma {:induction false} EscapeQuotesUndone(s: string)
    ensures Replace(EscapeQuotes(s), "\\\"", "\"") == s
    decreases |s|
  {
    EscapeQuotesInsertsBackslashes(s);
    if s != [] {
      var rest := BackslashBeforeQuotes(s[1..]);
      EscapeQuotesInsertsBackslashes(s[1..]);
      EscapeQuotesUndone(s[1..]);
      BackslashBeforeQuotesHead(s[1..]);
      var e := BackslashBeforeQuotes(s);
      if s[0] == '"' {
        assert e == "\\\"" + rest;
        assert e[..2] == "\\\"" && e[2..] == rest;
      } else {
        assert e == [s[0]] + rest;
        assert e[1..] == rest;
        if |e| >= 2 {
          assert e[1] == rest[0];
          assert e[..2] != "\\\"";
        }
      }
      assert [s[0]] + s[1..] == s;
    }
  }

  // ---------------------------------------------------------------------
  // The JavaScript registration
  // ---------------------------------------------------------------------

  /** The inputs JSON is an array of the inputs' first components, in the inputs' order, written in printable ASCII. */
  lemma InputFieldsDecode(inputs: seq<Field>)
    requires InputFieldsJson(inputs).Ok?
    ensures var d := Json.DecodeStringList(InputFieldsJson(inputs).value);
      d.Some? && |d.value| == |inputs| && forall i :: 0 <= i < |inputs| ==> d.value[i] == inputs[i][0]
    ensures Json.PrintableAscii(InputFieldsJson(inputs).value)
  {
    Json.DecodeDumpStringList(FirstComponents(inputs).value);
    Json.DumpStringListPrintable(FirstComponents(inputs).value);
  }

  /**
   * The outputs JSON is an array of one object per output, in declared order,
   * each with key `name` (the output's first component) before key `type`
   * (its second); it is written in printable ASCII.
   */
  lemma OutputFieldsDecode(outputs: seq<Field>)
    requires OutputFieldsJson(outputs).Ok?
    ensures var d := Json.DecodeObjectList(OutputFieldsJson(outputs).value);
      d.Some? && |d.value| == |outputs| &&
      forall i :: 0 <= i < |outputs| ==> d.value[i] == [("name", outputs[i][0]), ("type", outputs[i][1])]
    ensures Json.PrintableAscii(OutputFieldsJson(outputs).value)
  {
    var schema := OutputSchema(outputs).value;
    Json.DecodeDumpObjectList(schema);
    Json.DumpObjectListPrintable(schema);
    var sorted := Json.SortEach(schema);
    forall i | 0 <= i < |outputs|
      ensures sorted[i] == [("name", outputs[i][0]), ("type", outputs[i][1])]
    {
      NameBeforeType(outputs[i][0], outputs[i][1]);
    }
  }

  /** Sorting keys keeps `name` before `type`. */
  lemma NameBeforeType(name: string, typ: string)
    ensures Json.SortByKey([("name", name), ("type", typ)]) == [("name", name), ("type", typ)]
  {
    var members := [("name", name), ("type", typ)];
    assert "name"[0] == 'n' && "type"[0] == 't';
    assert Json.StrLe(members[0].0, members[1].0);
    assert Json.SortedByKey(members);
    Json.SortSortedIsIdentity(members);
  }

  /** A single `(name, type)` tuple output gives a JSON array holding one `name`/`type` object. */
  lemma TupleOutputDecodes(name: string, typ: string)
    ensures OutputFieldsJson([TupleField(name, typ)]).Ok?
    ensures Json.DecodeObjectList(OutputFieldsJson([TupleField(name, typ)]).value) == Some([[("name", name), ("type", typ)]])
  {
    var outputs := [TupleField(name, typ)];
    OutputFieldsDecode(outputs);
    var d := Json.DecodeObjectList(OutputFieldsJson(outputs).value).value;
    assert d[0] == [("name", name), ("type", typ)];
    assert d == [[("name", name), ("type", typ)]];
  }

  /**
   * The registration text is the name, `=`, the escaped implementation and
   * `;`, then on the next line the `bigquery.defineFunction` call with the
   * name in single quotes, the inputs JSON, the outputs JSON and the name.
   */
  lemma JsLayout(inputs: seq<Field>, outputs: seq<Field>, name: string, implementation: string)
    requires BuildJs(inputs, outputs, name, implementation).Ok?
    ensures InputFieldsJson(inputs).Ok? && OutputFieldsJson(outputs).Ok?
    ensures BuildJs(inputs, outputs, name, implementation).value ==
      name + "=" + EscapeQuotes(implementation) + ";\nbigquery.defineFunction('" + name + "', "
      + InputFieldsJson(inputs).value + ", " + OutputFieldsJson(outputs).value + ", " + name + ");"
  {
  }

  // ---------------------------------------------------------------------
  // Construction and application
  // ---------------------------------------------------------------------

  /** A constructed UDF returns the code rendered from its fields, and its implementation unescaped. */
  lemma UdfViews(inputs: seq<Field>, outputs: seq<Field>, name: string, implementation: string,
                 imports: Option<seq<string>>)
    requires NewUdf(inputs, outputs, name, implementation, imports).Ok?
    ensures var u := NewUdf(inputs, outputs, name, implementation, imports).value;
      Ok(u.ReprCode()) == BuildJs(inputs, outputs, name, implementation) && u.ReprJs() == implementation
  {
  }

  /**
   * A call's `sql` and `_repr_sql_()` are the SQL built when it was made;
   * its `js` and `_repr_code_()` are the UDF's code, unchanged.
   */
  lemma FunctionCallViews(udf: Udf, reprSql: Option<string>)
    requires NewFunctionCall(udf, reprSql).Ok?
    ensures var c := NewFunctionCall(udf, reprSql).value;
      Ok(c.ReprSql()) == BuildSql(udf.name, udf.outputs, reprSql) && c.ReprSql() == c.sql &&
      c.Js() == c.ReprCode() && c.ReprCode() == udf.ReprCode() && c.udf == udf
  {
  }

  /**
   * Applying a constructed UDF never raises IndexError: its outputs already
   * passed `_build_js`. On an object with `_repr_sql_()` it gives a call to
   * this UDF; on one without, AttributeError.
   */
  lemma ApplyValid<D>(udf: Udf, data: Argument<D>)
    requires udf.Valid()
    ensures data.ObjectArg? && data.reprSql.Some? ==> Apply(udf, data).Ok? && Apply(udf, data).value.Call?
    ensures data.ObjectArg? && data.reprSql.None? ==> Apply(udf, data) == Err(AttributeError)
  {
  }

  /** The inputs JSON of two one-letter inputs: Python's default item separator is ", ". */
  lemma ExampleInputs()
    ensures InputFieldsJson([StrField("a"), StrField("b")]) == Ok("[\"a\", \"b\"]")
  {
    var inputs := [StrField("a"), StrField("b")];
    assert StrField("a") == ["a"] && StrField("b") == ["b"];
    var names := FirstComponents(inputs).value;
    assert names[0] == "a" && names[1] == "b";
    assert names == ["a", "b"];
    assert Json.DumpString("a") == "\"a\"" by { Json.PlainTextUnescaped("a"); }
    assert Json.DumpString("b") == "\"b\"" by { Json.PlainTextUnescaped("b"); }
    assert ["a", "b"][1..] == ["b"] && ["b"][1..] == [];
    var dumps := Json.DumpStrings(["a", "b"]);
    assert dumps == ["\"a\"", "\"b\""];
    assert dumps[1..] == ["\"b\""];
    assert Join(", ", dumps) == "\"a\", \"b\"";
    assert Json.DumpStringList(names) == "[\"a\", \"b\"]";
  }

  /**
   * An input given as a plain string, as the constructor documents, contributes
   * only its first character to the inputs JSON; an empty one raises.
   */
  lemma StringInputUsesFirstCharacter()
    ensures InputFieldsJson([StrField("word")]) == Ok("[\"w\"]")
    ensures InputFieldsJson([StrField("")]) == Err(IndexError)
  {
    assert StrField("word")[0] == "w";
    var names := FirstComponents([StrField("word")]).value;
    assert names[0] == "w";
    assert names == ["w"];
    assert Json.DumpString("w") == "\"w\"" by { Json.PlainTextUnescaped("w"); }
    assert ["w"][1..] == [];
    assert Json.DumpStrings(["w"]) == ["\"w\""];
    assert Json.DumpStringList(names) == "[\"w\"]";
  }
}
