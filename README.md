# Arithmetic and country-information tools, modelled in Dafny

The two tools a conversational assistant hands to its language model:

- **The arithmetic calculator** (`tools/arithmetic_tool.py`). It evaluates a
  parsed Python expression tree through the class-level `operators` table,
  turns evaluation errors into "Invalid mathematical expression: …" answers,
  and runs a "basic operation" calculator that looks a name up in a
  six-entry table. `_run` dispatches between the two on its keyword
  arguments.
- **The country-information tool** (`tools/vacation_tool.py`). It checks
  the REST Countries response (status, then an empty list) and reads the
  first country into a five-field summary, with "Unknown" defaults. The
  currencies are rendered as a comma-joined list, and the summary becomes a
  fixed six-line text report.

Files:

- `wrappers.dfy` holds `Option` and `Result`.
- `text.dfy` holds the Python string operations the tools use: `strip`,
  ASCII `lower`, `join`, `str(n)` for a status code, and text made of
  '\n'-terminated lines.
- `arithmetic_tool.dfy` and `vacation_tool.dfy` hold one module per tool.

The arithmetic tool is pure code and is modelled by functions and lemmas.
In the country tool, `format_currency_information` (a `for` loop with
`append`) and `format_country_information` (a chain of `+=`) are methods.
Each is proved equal to a specification function (`CurrencySummary`,
`CountryReport`), and the properties are lemmas about those functions.

Real Python numbers (`int` and `float`) are exact reals. Three services the arithmetic tool takes
from Python are parameters, bundled in `ArithmeticTool.Host`: the parser
(`ast.parse`), the `**` operator, and the conversion of a number to text.
The HTTP request of the country tool is a parameter `get` that maps the
request URL to the status code and the decoded JSON list.

The code's table has five binary operators, `+ - * / **`, plus unary `-`
and `+`.

The functions that model the tools' operations, and the lines each one
follows:

- `ArithmeticTool.Evaluate`: `evaluate_ast_node`, tools/arithmetic_tool.py:71-99.
- `ArithmeticTool.ParseMathematicalExpression`: tools/arithmetic_tool.py:64-69.
- `ArithmeticTool.EvaluateExpression`: `evaluate_expression`, tools/arithmetic_tool.py:57-62.
- `ArithmeticTool.CalculateBasicOperation` and `BasicAnswer`: `calculate_basic_operation`, tools/arithmetic_tool.py:36-55.
- `ArithmeticTool.ApplyOperation` and `FloorMod`: the lambdas of the `operations` table, tools/arithmetic_tool.py:37-44.
- `ArithmeticTool.Run`: `_run`, tools/arithmetic_tool.py:28-34.
- `Text.Strip`: `str.strip`, tools/arithmetic_tool.py:58.
- `Text.Join`: `str.join`, tools/arithmetic_tool.py:48 and tools/vacation_tool.py:48, 67.
- `VacationTool.CurrencyEntry`: one currency, tools/vacation_tool.py:60-65.
- `VacationTool.CurrencySummary`: `format_currency_information`, tools/vacation_tool.py:54-67.
- `VacationTool.ExtractCountryDetails`: `extract_country_details`, tools/vacation_tool.py:44-52.
- `VacationTool.CountryReport`: `format_country_information`, tools/vacation_tool.py:69-76.
- `VacationTool.FetchCountryData`: `fetch_country_data` after the request, tools/vacation_tool.py:15-26.
- `VacationTool.Run`: `_run`, tools/vacation_tool.py:28-41.

## Model

| member | source | states |
|---|---|---|
| ArithmeticTool.Evaluate | tools/arithmetic_tool.py:71-99 | every error the evaluator returns is one of its `ValueError` messages: "Division by zero", "Unsupported operation: X" for an operator X outside the table, "Unsupported unary operation: X" likewise, or "Unsupported node type: …" |
| ArithmeticTool.BinaryStepAgrees | tools/arithmetic_tool.py:18-23 | a binary operator has an arithmetic meaning exactly when it is in the table and is not a division by zero, and that meaning equals the table's function |
| ArithmeticTool.EvaluateAgreesWithMeaning | tools/arithmetic_tool.py:71-99 | the evaluator yields a value exactly when the independent arithmetic reading `Meaning` has one, and then the same value |
| ArithmeticTool.ConstantEvaluatesToItself | tools/arithmetic_tool.py:72-76 | a `Constant` or `Num` node evaluates to its own value |
| ArithmeticTool.BinaryNodeSemantics | tools/arithmetic_tool.py:78-89 | with both children evaluating to x and y, Add gives x + y, Sub x - y, Mult x * y, Div x / y when y is not 0, and Pow gives x ** y |
| ArithmeticTool.DivisionByZeroFails | tools/arithmetic_tool.py:86-87 | a `Div` node whose right child evaluates to 0 never yields a value; when the left child succeeds the error is exactly "Division by zero" |
| ArithmeticTool.UnaryNodeSemantics | tools/arithmetic_tool.py:91-96 | unary minus negates the operand's value and unary plus returns it unchanged |
| ArithmeticTool.UnsupportedConstructsFail | tools/arithmetic_tool.py:82-99 | an operator missing from the table fails with "Unsupported operation: " plus its class name, a missing unary operator with "Unsupported unary operation: " plus its class name, and any other node with "Unsupported node type: " plus its class name |
| ArithmeticTool.TableContents | tools/arithmetic_tool.py:18-26 | the table's binary keys are exactly Add, Sub, Mult, Div and Pow, and its unary keys exactly USub and UAdd |
| ArithmeticTool.EvaluationOrder | tools/arithmetic_tool.py:79-80 | the left child is evaluated first: its error decides the result, and a right-child error decides it only when the left child succeeds |
| ArithmeticTool.FailurePropagates | tools/arithmetic_tool.py:78-96 | if any subtree fails, the whole tree fails |
| ArithmeticTool.UnsupportedAnywhereFails | tools/arithmetic_tool.py:82-99 | a tree that contains an operator outside the table, or a node of another class, anywhere never yields a value |
| ArithmeticTool.SupportedFailsOnlyByDivisionByZero | tools/arithmetic_tool.py:86-87 | in a tree built only from table operators and numbers, the only possible error is "Division by zero" |
| ArithmeticTool.ParseMathematicalExpression | tools/arithmetic_tool.py:64-69 | every error it returns begins "Invalid mathematical expression: " |
| ArithmeticTool.EvaluateExpressionOutcomes | tools/arithmetic_tool.py:57-69 | the answer for a stripped expression is "Invalid mathematical expression: " plus the parser's message, or the same prefix plus an evaluator error message, or "The result of '<stripped>' is <value>" |
| ArithmeticTool.EvaluateExpressionIgnoresPadding | tools/arithmetic_tool.py:58 | surrounding whitespace never changes the answer of the expression path |
| ArithmeticTool.EvaluateExpressionPrefix | tools/arithmetic_tool.py:57-62 | every answer of the expression path begins "Invalid mathematical expression: " or "The result of '" |
| ArithmeticTool.OperationNames | tools/arithmetic_tool.py:48 | the keys of the table, one per entry, in insertion order |
| ArithmeticTool.Lookup | tools/arithmetic_tool.py:46 | a lookup finds an entry exactly when the key is one of the table's names, and the entry it finds is in the table under that key |
| ArithmeticTool.LookupIgnoresCase | tools/arithmetic_tool.py:46 | an operation name and its lower-cased form find the same entry |
| ArithmeticTool.LookupSucceedsForKnownNames | tools/arithmetic_tool.py:37-47 | the lookup succeeds exactly when the lower-cased name is add, subtract, multiply, divide, power or mod |
| ArithmeticTool.OperationNamesInOrder | tools/arithmetic_tool.py:37-44 | the table's keys in order are add, subtract, multiply, divide, power, mod |
| ArithmeticTool.AvailableOperationsText | tools/arithmetic_tool.py:48 | the list of available operations is "add, subtract, multiply, divide, power, mod" |
| ArithmeticTool.UnknownOperationListsNames | tools/arithmetic_tool.py:47-49 | an unknown name is answered with "Unknown operation '<name as given>'. Available operations: " followed by that list |
| ArithmeticTool.BasicZeroDivisor | tools/arithmetic_tool.py:41-43 | `divide` with divisor 0 answers exactly "Error: Division by zero", and `mod` with divisor 0 exactly "Error: Modulo by zero" |
| ArithmeticTool.ZeroDivisorAnswer | tools/arithmetic_tool.py:51-53 | once the divide or mod entry is found, a zero divisor returns the lambda's error string itself |
| ArithmeticTool.ZeroDivisorByName | tools/arithmetic_tool.py:41-46 | the same zero-divisor answers for every spelling that lower-cases to "divide" or "mod" |
| ArithmeticTool.FloorModBounds | tools/arithmetic_tool.py:43 | Python's `%` leaves a remainder between 0 and the divisor, on the divisor's side |
| ArithmeticTool.BasicResultSentence | tools/arithmetic_tool.py:51-55 | a successful operation answers "The result of <a> <operation> <b> is <value>", quoting the operation as the caller wrote it |
| ArithmeticTool.BasicAgreesWithEvaluator | tools/arithmetic_tool.py:18-23 | the basic path and the tree evaluator compute the same value for +, -, *, ** and a non-zero division; both fail on a zero division; `mod` succeeds on the basic path and is rejected by the evaluator |
| ArithmeticTool.RunDispatch | tools/arithmetic_tool.py:28-32 | `_run` takes the basic path whenever a and b are present (0 counts) and the operation is non-empty, even beside an expression; otherwise it takes the expression path for a non-empty expression |
| ArithmeticTool.BasicAnswerPrefix | tools/arithmetic_tool.py:47-55 | every basic-path answer begins "Unknown operation '", "Error: " or "The result of " |
| ArithmeticTool.NotHelpMessage | tools/arithmetic_tool.py:34 | no answer of either path equals the help message |
| ArithmeticTool.HelpExactlyWhenNothingRequested | tools/arithmetic_tool.py:28-34 | the help message is the answer exactly when neither path is requested |
| Text.TrimStart | tools/arithmetic_tool.py:58 | the result is the suffix of the input left after a run of whitespace, and it does not begin with whitespace |
| Text.TrimEnd | tools/arithmetic_tool.py:58 | the result is the prefix of the input left before a run of whitespace, and it does not end with whitespace |
| Text.StripPadded | tools/arithmetic_tool.py:58 | a text with no whitespace at its edges, padded with whitespace on both sides, strips back to itself |
| Text.StripHasNoEdgeWhitespace | tools/arithmetic_tool.py:58 | a stripped text has no whitespace at either edge |
| Text.StripIdempotent | tools/arithmetic_tool.py:58 | stripping twice is stripping once |
| Text.ToLower | tools/arithmetic_tool.py:46 | lowering keeps the length and lowers each character in place |
| Text.ToLowerHasNoUpperCase | tools/arithmetic_tool.py:46 | a lowered text holds no upper-case ASCII letter |
| Text.ToLowerIdempotent | tools/arithmetic_tool.py:46 | lowering twice is lowering once |
| Text.JoinAppend | tools/vacation_tool.py:67 | joining one more part at the end adds one separator and the part |
| Text.JoinKeepsCharacters | tools/vacation_tool.py:67 | every character of every part survives in the joined text |
| Text.NatToString | tools/vacation_tool.py:20 | the decimal spelling of a status code is non-empty, all digits, with no leading zero |
| Text.NatToStringRoundTrip | tools/vacation_tool.py:20 | reading the decimal spelling back gives the number |
| Text.SplitJoinLines | tools/vacation_tool.py:69-76 | lines without '\n' of their own read back exactly from their '\n'-terminated concatenation |
| VacationTool.CurrencyEntries | tools/vacation_tool.py:58-65 | one entry per currency, in the table's iteration order, each the rendering of that currency |
| VacationTool.FormatCurrencyInformation | tools/vacation_tool.py:54-67 | the loop returns the currency summary: "Unknown" for no currencies, else the entries joined by ", " |
| VacationTool.CurrencyEntryShape | tools/vacation_tool.py:59-65 | an entry is "name (code) - symbol" when the symbol is present and non-empty, else "name (code)"; a missing name falls back to the code |
| VacationTool.SummaryUnknownIffEmpty | tools/vacation_tool.py:55-56 | the summary is "Unknown" exactly when the currency table is empty |
| VacationTool.SummaryAppend | tools/vacation_tool.py:58-67 | a further currency adds ", " and its own entry at the end of the summary |
| VacationTool.ExtractDefaults | tools/vacation_tool.py:44-52 | a missing common name, official name, region or capital reads "Unknown"; an empty capital list gives ""; a one-element list gives that capital; missing or empty currencies give "Unknown" |
| VacationTool.ExtractPresentFields | tools/vacation_tool.py:44-52 | present names and region are copied unchanged, a capital list is joined with ", ", and currencies are summarised |
| VacationTool.FormatCountryInformation | tools/vacation_tool.py:69-76 | the `+=` chain builds exactly the report: the header line, an empty line, then the Official Name, Capital, Region and Currency lines, each ended by '\n' |
| VacationTool.ReportReadsBack | tools/vacation_tool.py:69-76 | when no field holds a line break, the report splits back into exactly those six lines, in that order |
| VacationTool.FetchOutcomes | tools/vacation_tool.py:19-26 | a non-200 status fails with "Failed to get country info: " and the status code, which reads back from the message; an empty list fails with "No country found with name: <name>"; otherwise the first element is returned |
| VacationTool.RunWithoutLocation | tools/vacation_tool.py:32-33 | an empty or missing location answers "Please provide a country name.", whatever the server would answer |
| VacationTool.RunWithLocation | tools/vacation_tool.py:28-41 | with a location, a failed fetch answers "Error fetching country information: " plus the error and no report is formatted; a fetched country is reported for the given user, or for "default_user" |
| VacationTool.RunReportsFailedStatus | tools/vacation_tool.py:19-20 | end to end, a non-200 status answers "Error fetching country information: Failed to get country info: <status>" |
| VacationTool.ReportIsNotAnError | tools/vacation_tool.py:32-41 | a report never equals an error answer or the request for a location |

## Left out

- `ast.parse` is Python's own parser. It is the parameter `Host.parse`, which gives the tree or the message of the `SyntaxError` or `ValueError` it raised.
- The exact semantics of `**` is not modelled. It is the parameter `Host.power`. Its uncaught errors are not modelled either: the `ZeroDivisionError` of `0 ** -1` and an `OverflowError` escape `_run` in Python.
- Complex numbers are not modelled. A constant such as `2j`, and any result computed from one, is a Python number that no `real` represents; Python answers "The result of '2j' is 2j".
- ArithmeticTool.Evaluate and ArithmeticTool.EvaluateExpression never raise, but Python raises exceptions that escape `_run`, because `parse_mathematical_expression` at tools/arithmetic_tool.py:68 catches only `SyntaxError` and `ValueError`. The model answers with ordinary text in these cases:
  - `RecursionError` from the recursion at tools/arithmetic_tool.py:79 on a deeply nested tree, such as 1200 terms joined by `+`;
  - `OverflowError` from `operator.truediv` at tools/arithmetic_tool.py:89 when an integer too large for a float is divided, such as a 401-digit number divided by 3;
  - `ValueError` from the f-string at tools/arithmetic_tool.py:62, which lies outside the `try`, when an integer result has more than 4300 digits. `Host.show` is total.
- Number-to-text conversion (`str` of a float or int inside the f-strings) is the parameter `Host.show`.
- IEEE floating point is not modelled: sums, products and quotients are exact. So are `int` and `float` mixing, rounding, infinities and NaN.
- Non-numeric constants are not modelled, and every `Constant` holds a real number. In Python a string constant (or `'a' + 'b'`) reaches `isinstance(result, str)` and comes back as if it were an error message. Booleans act as 0 and 1.
- Every node class other than `Constant`, `Num`, `BinOp` and `UnaryOp` is an `OtherNode` known only by its class name. Its children are never evaluated.
- `ast.Num` is kept as the `Num` branch, which suits Python versions that still define it. Python 3.14 removes `ast.Num`, and there the check on line 75 raises `AttributeError` for every non-`Constant` node. That case is not modelled.
- Text.ToLower lowers only the ASCII letters, not full Unicode `str.lower()`. No non-ASCII character lowers to a text made only of the letters a-z except the Kelvin sign, which lowers to 'k', and no table name contains a 'k'. So the lookup result is the same for every name, but this is not proved.
- `requests.get`, building the query string and URL-encoding the country name are not modelled. The response is the parameter `get`. Its status is a natural number and its JSON body is a list of country records.
- A JSON body that is not a list is not modelled. Neither are JSON `null` values inside a record: a missing key and a present key are the only two cases.
- VacationTool.Run: the `"error" in country_data` test is the `FetchFailed` case of `FetchOutcome`. A country record that itself carried an `error` key would be treated as an error in Python. The requested fields never include one.
- VacationTool.Run: a `user_id` passed explicitly as `None` prints as "None" in Python. In the model an absent user id falls back to "default_user".
- The currency table is a sequence of (code, details) pairs in dictionary order. The model does not enforce that codes are distinct, which a Python dictionary guarantees.
- The async `_arun` wrappers, the pydantic input schemas and the LangChain `BaseTool` attributes are framework plumbing and are not modelled.
- `agent.py` (model orchestration), `memory/neo4j_memory.py` (graph-database queries) and `main.py` (console loop) are not part of this model.
