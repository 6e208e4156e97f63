# BigQuery UDF text generation, modelled in Dafny

The datalab Python library declares BigQuery user-defined functions (UDFs)
written in JavaScript. A `UDF` has its input fields, its output schema
(name/type pairs), a name, a JavaScript implementation and an unused list
of imports. When it is constructed it renders, once, the JavaScript that
registers it:

    <name>=<implementation with each " preceded by a backslash>;
    bigquery.defineFunction('<name>', <inputs JSON>, <outputs JSON>, <name>);

The inputs JSON is the list of the first components of the inputs. The
outputs JSON is a list of `{"name": ..., "type": ...}` objects whose keys
are sorted. Applying a UDF to a list gives a `FunctionEvaluation`, which
holds the implementation text and that list. Applying it to anything else
(a query or a table) gives a `FunctionCall`, which holds the UDF and the SQL
`(SELECT <output names joined by ", "> FROM <name>(<the argument's SQL>))`.
That SQL is built once, when the call is made.

The project has four modules:

- `Wrappers` (wrappers.dfy): `Option` and `Result`.
- `Text` (text.dfy): Python's `str.join` and `str.replace`. It also has
  `str.split` and a character count, which are used to state what the first
  two produce.
- `Json` (json.dfy): what `json.dumps` writes for a list of strings and for
  a list of string-valued dictionaries. It uses Python's defaults:
  `ensure_ascii=True`, item separator `", "`, key separator `": "`, and
  `sort_keys=True` where the source asks for it. Beside the encoder is a
  decoder that follows RFC 8259 (section 4 objects, section 5 arrays,
  section 7 strings, whitespace as in section 2), except that it rejects
  lone surrogates. Lemmas prove that decoding
  the encoder's text gives back what was encoded.
- `BigQueryUdf` (udf.dfy): the three classes, as datatypes, and their
  builders, as functions.

Every field of the Python classes is assigned only in a constructor. So
each class is a datatype and each operation is a function. A Python
exception is the `Err` case of a `Result`.

A schema entry (`Field`) is a sequence of strings that the builders index
with `f[0]` and `f[1]`:

- A `(name, type)` tuple is `[name, type]` (`TupleField`).
- A plain string is the sequence of its one-character strings
  (`StrField`), as Python indexes it.

The constructor's docstring documents the inputs as a list of string field
names (line 102). `_build_js` takes `f[0]` of each input (line 134), and
its own docstring says the inputs are `(name, type)` tuples (line 127).
The model keeps what the code does. An input given as the string `"word"`
contributes `"w"` (lemma `StringInputUsesFirstCharacter`). An empty
input raises `IndexError`.

Three details of `sources/lib/api/gcp/bigquery/_udf.py` shape the model:

- A `FunctionEvaluation` holds the implementation text and the list and
  nothing else (lines 77-79, 118).
- The rendered JavaScript is exactly the two statements above. Nothing is
  prepended to it, and the imports are never expanded into code.
- `json.dumps` is called with its default separators, so the arrays read
  `["a", "b"]` with a space after each comma (lemma `ExampleInputs`).

## Model

| member | source | states |
|---|---|---|
| BigQueryUdf.StrField | sources/lib/api/gcp/bigquery/_udf.py:102 | a string used as a field indexes to its one-character strings, in order |
| BigQueryUdf.FirstComponents | sources/lib/api/gcp/bigquery/_udf.py:31 | `[f[0] for f in fields]` succeeds iff every field is non-empty, otherwise IndexError; on success it has one entry per field, the field's first component, in order |
| BigQueryUdf.OutputSchema | sources/lib/api/gcp/bigquery/_udf.py:138 | the list of `{'name': f[0], 'type': f[1]}` succeeds iff every output has two components, otherwise IndexError; entry i is the dictionary of output i |
| BigQueryUdf.BuildSql | sources/lib/api/gcp/bigquery/_udf.py:22-31 | the SQL is built iff every output is non-empty and the argument has `_repr_sql_`; IndexError iff some output is empty (checked first); AttributeError iff only `_repr_sql_` is missing |
| BigQueryUdf.SqlSandwich | sources/lib/api/gcp/bigquery/_udf.py:31 | the SQL starts with `(SELECT `, ends with `))`, holds the argument's SQL verbatim just before that, preceded by ` FROM `, the name and `(` |
| BigQueryUdf.SqlColumnsInOrder | sources/lib/api/gcp/bigquery/_udf.py:31 | splitting the text between `(SELECT ` and ` FROM ` at `", "` gives the output names one per output in declared order (names without commas) |
| Text.SplitJoin | sources/lib/api/gcp/bigquery/_udf.py:31 | `sep.join` is undone by `split(sep)` when no item holds the separator's first character |
| BigQueryUdf.EscapeQuotesInsertsBackslashes | sources/lib/api/gcp/bigquery/_udf.py:141-143 | `replace('"', '\\"')` equals inserting one backslash before each `"` and keeping every other character |
| BigQueryUdf.EscapeQuotesLength | sources/lib/api/gcp/bigquery/_udf.py:143 | the escaped implementation is longer than the original by exactly its number of `"` |
| BigQueryUdf.EscapeQuotesUndone | sources/lib/api/gcp/bigquery/_udf.py:143 | replacing each `\"` with `"`, left to right, restores the implementation |
| BigQueryUdf.InputFieldsJson | sources/lib/api/gcp/bigquery/_udf.py:134 | the inputs JSON is produced iff every input is non-empty |
| BigQueryUdf.InputFieldsDecode | sources/lib/api/gcp/bigquery/_udf.py:132-134 | the inputs JSON decodes (RFC 8259) to the inputs' first components in the inputs' order, and is printable ASCII |
| BigQueryUdf.OutputFieldsJson | sources/lib/api/gcp/bigquery/_udf.py:136-139 | the outputs JSON is produced iff every output has two components |
| BigQueryUdf.OutputFieldsDecode | sources/lib/api/gcp/bigquery/_udf.py:136-139 | the outputs JSON decodes to one object per output in declared order, with key `name` (first component) before key `type` (second), and is printable ASCII |
| BigQueryUdf.NameBeforeType | sources/lib/api/gcp/bigquery/_udf.py:139 | sorting the keys keeps `name` before `type` |
| BigQueryUdf.BuildJs | sources/lib/api/gcp/bigquery/_udf.py:122-143 | the registration text is produced iff every input is non-empty and every output has two components; otherwise IndexError |
| BigQueryUdf.JsLayout | sources/lib/api/gcp/bigquery/_udf.py:142-143 | the registration text is `name=`, the escaped implementation, `;`, a newline, then `bigquery.defineFunction('name', `, the inputs JSON, `, `, the outputs JSON, `, name);` |
| BigQueryUdf.NewUdf | sources/lib/api/gcp/bigquery/_udf.py:98-114 | construction succeeds iff `_build_js` does; the UDF keeps every argument, imports included, and its code is what `_build_js` renders from them |
| BigQueryUdf.UdfViews | sources/lib/api/gcp/bigquery/_udf.py:145-149 | `_repr_code_()` is the code rendered at construction; `__repr_js__()` is the raw, unescaped implementation |
| BigQueryUdf.NewFunctionCall | sources/lib/api/gcp/bigquery/_udf.py:33-41 | a call keeps the UDF it was made by, and its SQL is `_build_sql` of the UDF's name, the UDF's outputs and the argument; the call fails exactly as `_build_sql` does |
| BigQueryUdf.FunctionCallViews | sources/lib/api/gcp/bigquery/_udf.py:43-72 | `sql` and `_repr_sql_()` are the SQL built at the call; `js` and `_repr_code_()` are the UDF's code unchanged; `udf` is the calling UDF |
| BigQueryUdf.Apply | sources/lib/api/gcp/bigquery/_udf.py:116-120 | a list argument gives a FunctionEvaluation of the UDF's implementation text over that same list; any other argument gives a FunctionCall whose `udf` is the calling UDF, or fails with exactly the error `_build_sql` raises |
| BigQueryUdf.ApplyValid | sources/lib/api/gcp/bigquery/_udf.py:114-120 | a constructed UDF applied to a non-list never raises IndexError: with `_repr_sql_` it gives a call, without it AttributeError (for outputs the caller has not changed since construction; see "Left out") |
| BigQueryUdf.ExampleInputs | sources/lib/api/gcp/bigquery/_udf.py:134 | two one-letter inputs give the inputs JSON `["a", "b"]` |
| BigQueryUdf.StringInputUsesFirstCharacter | sources/lib/api/gcp/bigquery/_udf.py:102-134 | a string input contributes only its first character to the inputs JSON; an empty string input raises IndexError |
| Json.StringRoundTrip | sources/lib/api/gcp/bigquery/_udf.py:134 | `json.dumps` of a string decodes back to that string, with whatever text follows left over |
| Json.EscapeCharRoundTrip | sources/lib/api/gcp/bigquery/_udf.py:134 | the ASCII-only escape of any character (short escapes, `\uXXXX`, surrogate pairs) decodes to that character |
| Json.DecodeDumpStringList | sources/lib/api/gcp/bigquery/_udf.py:134 | `json.dumps` of a list of strings decodes to the same strings in the same order |
| Json.SortByKey | sources/lib/api/gcp/bigquery/_udf.py:139 | `sort_keys`: the members come out in key order and form a permutation of the members that went in |
| Json.ObjectRoundTrip | sources/lib/api/gcp/bigquery/_udf.py:139 | `json.dumps(d, sort_keys=True)` decodes to the members of `d` in key order |
| Json.DecodeDumpObjectList | sources/lib/api/gcp/bigquery/_udf.py:139 | `json.dumps` of a list of dictionaries decodes to one object per dictionary, in order, each in key order |
| Json.DumpStringPrintable | sources/lib/api/gcp/bigquery/_udf.py:134 | `json.dumps` of any string is printable ASCII |
| Json.DumpStringListPrintable | sources/lib/api/gcp/bigquery/_udf.py:134 | `json.dumps` of a list of strings is printable ASCII |
| Json.DumpObjectListPrintable | sources/lib/api/gcp/bigquery/_udf.py:139 | `json.dumps` of a list of dictionaries is printable ASCII |
| BigQueryUdf.Udf | sources/lib/api/gcp/bigquery/_udf.py:90-114 | the UDF's stored fields: inputs, outputs, name, implementation, imports, and the code rendered at construction |
| BigQueryUdf.Udf.ReprCode | sources/lib/api/gcp/bigquery/_udf.py:145-146 | `_repr_code_()` returns the stored code; lemma `UdfViews` ties it to `_build_js` |
| BigQueryUdf.Udf.ReprJs | sources/lib/api/gcp/bigquery/_udf.py:148-149 | `__repr_js__()` returns the stored implementation; lemma `UdfViews` states it is unescaped |
| BigQueryUdf.FunctionCall | sources/lib/api/gcp/bigquery/_udf.py:18-41 | a call's stored fields: the UDF and the SQL built at the call |
| BigQueryUdf.FunctionCall.ReprSql | sources/lib/api/gcp/bigquery/_udf.py:48-64 | `sql` and `_repr_sql_()` return the stored SQL; lemma `FunctionCallViews` ties it to `_build_sql` |
| BigQueryUdf.FunctionCall.ReprCode | sources/lib/api/gcp/bigquery/_udf.py:66-72 | `_repr_code_()` delegates to the called UDF; lemma `FunctionCallViews` states the result |
| BigQueryUdf.FunctionCall.Js | sources/lib/api/gcp/bigquery/_udf.py:53-56 | the `js` property is `_repr_code_()`; lemma `FunctionCallViews` states the result |
| BigQueryUdf.FunctionEvaluation | sources/lib/api/gcp/bigquery/_udf.py:75-87 | an evaluation's stored fields: the implementation text and the data list |
| BigQueryUdf.Argument | sources/lib/api/gcp/bigquery/_udf.py:116-120 | what `__call__` distinguishes: a list (or list subclass), or any other object with the result of its `_repr_sql_()`, or none |
| BigQueryUdf.SqlNoColumns | sources/lib/api/gcp/bigquery/_udf.py:31 | with no outputs the SQL is `(SELECT  FROM name(sql))`: the text between the two markers is empty |
| BigQueryUdf.EscapeQuotes | sources/lib/api/gcp/bigquery/_udf.py:143 | `implementation.replace('"', '\\"')`; what it produces is stated by `EscapeQuotesInsertsBackslashes`, `EscapeQuotesLength` and `EscapeQuotesUndone` |
| BigQueryUdf.TupleOutputDecodes | sources/lib/api/gcp/bigquery/_udf.py:136-139 | one `(name, type)` tuple as the only output gives a JSON array that decodes to the one object `{"name": name, "type": type}` |
| Text.Join | sources/lib/api/gcp/bigquery/_udf.py:31 | Python's `sep.join(xs)`; lemma `Text.SplitJoin` states that `split` gives the items back |
| Text.Replace | sources/lib/api/gcp/bigquery/_udf.py:143 | Python's `s.replace(old, new)`, left to right without overlap; the escaping lemmas state what it does to quotes |
| Json.EscapeChar | sources/lib/api/gcp/bigquery/_udf.py:134 | how `json.dumps` with `ensure_ascii=True` writes one character; lemmas `EscapeCharRoundTrip` and `DumpStringPrintable` state that it decodes back and is printable ASCII |
| Json.DumpString | sources/lib/api/gcp/bigquery/_udf.py:134 | `json.dumps` of a string; lemmas `StringRoundTrip` and `DumpStringPrintable` state its properties |
| Json.DumpStringList | sources/lib/api/gcp/bigquery/_udf.py:134 | `json.dumps` of a list of strings; lemmas `DecodeDumpStringList` and `DumpStringListPrintable` state its properties |
| Json.DumpObject | sources/lib/api/gcp/bigquery/_udf.py:139 | `json.dumps(d, sort_keys=True)` of one dictionary; lemma `ObjectRoundTrip` states its property |
| Json.DumpObjectList | sources/lib/api/gcp/bigquery/_udf.py:139 | `json.dumps` of a list of dictionaries with `sort_keys=True`; lemmas `DecodeDumpObjectList` and `DumpObjectListPrintable` state its properties |

## Left out

- `sources/web/datalab/static/test.js` is not part of this model. It is a
  browser test harness for notebooks: DOM styles, alerts, timers and
  regular-expression scrubbing of cell output.
- The argument's `_repr_sql_()` belongs to query and table classes that
  are not part of this model. Its result is a parameter: `ObjectArg(Some(sql))`, or
  `ObjectArg(None)` for an object without that method.
- `imports` is stored but never used by the source, so the model only
  stores it. Nothing is fetched.
- Name validation is documented as raising, but the source does not
  implement it, so the model does not validate names either.
- Field components are strings. A component of another type would make
  `join` raise TypeError, or `json.dumps` write a number. Neither is modelled.
- Python 2 byte strings are not modelled. Strings are sequences of Unicode
  scalar values, as in Python 3 strings that hold no lone surrogate.
- Object identity and aliasing are not modelled. The constructor stores the
  caller's `outputs` list by reference (line 110), and every call reads it
  again (line 41). A caller that changes that list after construction
  changes later calls. Appending an empty tuple makes the next call raise
  IndexError, and renaming an output makes the call's SQL columns disagree
  with the code. The model fixes the field values at construction. So
  `ApplyValid` (no IndexError from a constructed UDF) and the agreement of
  SQL and code hold only for callers that do not change those lists.
  Likewise a FunctionCall shares its UDF object in Python and holds the UDF
  value here.
- The JSON decoder reads only the shapes the encoder writes. It takes arrays
  of strings and arrays of objects with string values, not every JSON value.
- The JSON decoder rejects a `\uXXXX` escape of an unpaired surrogate,
  which the grammar in section 7 of RFC 8259 allows. Such a string has no
  Unicode scalar value sequence to decode to, and the encoder never writes
  one, so the round-trip lemmas are unaffected.
- The full registration text of a sample UDF is not shown character for
  character. Evaluating it on literals costs the verifier too much. `JsLayout`
  states the layout for every input instead.
