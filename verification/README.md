# jsonexplorer query evaluator and result flattener, in Dafny

jsonexplorer answers a terse path query such as `object.*.{name,extra.value}`
against a JSON document. This project models the part of it that gives the
language its meaning:

- the parse tree of a query (`Query`), one constructor per alternative of the
  grammar rules `expr_list`, `expr`, `key_string` and `key_int`;
- the tree-walking evaluator (`Evaluator`): key lookup on objects, integer
  indexing and the `*` wildcard on arrays, the `.` chain that continues once
  after a normal segment and once per element after a wildcard, and the
  `{…}` group that runs every member on the same input;
- the flattener (`Flatten`) that turns a nested result into rows of
  non-list cells;
- the `JsonExplorer` object (`Explorer`): the last parsed query and the last
  result, and the guard that makes `explore` fail before any `parse`.

Lookup failures, which the program raises as Python exceptions, are `Failure`
values of `Result`. `Semantics` states what the evaluator computes against
reference definitions (an in-order collection of independent results, a
plain path walk), and `UnitTests` restates the expected results of the
repository's unit tests as lemmas.

Three behaviours of the program that a reader might not expect, which the
model follows as written:

- A quoted key looks up the raw characters between its quotes
  (`lexeme[1:-1]`); escape sequences are not decoded, so `"a\"b"` looks up
  the four characters `a\"b`.
- The wildcard tag is dropped at the `expr_list` level: a chain returns only
  a value, never a tag.
- `flatten_results` before any successful `explore` gives `[[None]]`, since
  the stored result starts as `None` (`Null` here).

Modules: `Wrappers` (Option, Result), `Json` (the value), `Query` (the tree),
`Evaluator`, `Semantics`, `Flatten`, `Explorer`, `UnitTests`.

## Model

| member | source | states |
|---|---|---|
| Query.QuotedText | jsonexplorer/parser.py:184 | the looked-up key is the quoted token without its first and last character (empty for a token shorter than two); re-adding them gives the token back |
| Evaluator.Lookup | jsonexplorer/parser.py:152-153 | a string key succeeds exactly when the input is an object holding the key, and gives the stored value; a missing key is KeyNotFound, a non-object is a type error |
| Evaluator.EvalString | jsonexplorer/parser.py:181-184 | a quoted key succeeds exactly when the text between the quotes is a key of the object, gives its value, and for a token `"s"` behaves as a lookup of `s` |
| Evaluator.EvalKeyString | jsonexplorer/parser.py:148-155 | an identifier or quoted key on an object returns the stored value tagged Normal; missing key or non-object input is the matching error |
| Evaluator.EvalKeyInt | jsonexplorer/parser.py:157-169 | index i succeeds exactly when the input is an array longer than i and gives element i tagged Normal, IndexOutOfRange when i >= length; the wildcard succeeds exactly on arrays and returns the array itself, element for element, tagged Fanout; any non-array is a type error |
| Evaluator.EvalExpr | jsonexplorer/parser.py:171-179 | a segment's result is tagged Fanout exactly when the segment is the wildcard, and then it is the input array |
| Evaluator.EvalExprList | jsonexplorer/parser.py:102-118 | a group yields an array with one entry per member; a chain starting with a wildcard yields an array as long as the input array |
| Evaluator.EvalChain | jsonexplorer/parser.py:120-133 | a failing head aborts the chain with its error; with no tail the head's value is returned unchanged; after a wildcard head the result is an array with one entry per element |
| Evaluator.EvalEach | jsonexplorer/parser.py:130-131 | the fan-out produces exactly one result per element |
| Evaluator.EvalGroup | jsonexplorer/parser.py:135-146 | a successful group is an array of length 1 + number of further members, whose first entry is the first member's value on the same input |
| Evaluator.EvalMembers | jsonexplorer/parser.py:144-145 | one result per further member |
| Semantics.Collect | jsonexplorer/parser.py:141-146 | collecting results left to right succeeds exactly when every one succeeds, keeping each value in place; otherwise it fails with the error of the first failing one |
| Semantics.EachIsCollect | jsonexplorer/parser.py:131 | the fan-out is the in-order collection of the tail evaluated independently on each element |
| Semantics.MembersIsCollect | jsonexplorer/parser.py:144-145 | the further group members are each evaluated independently on the same input, collected in order |
| Semantics.WildcardFanOut | jsonexplorer/parser.py:126-131 | `*.tail` on an array succeeds exactly when the tail succeeds on every element; its i-th entry is the tail on element i; otherwise it fails with the first failing element's error |
| Semantics.GroupInOrder | jsonexplorer/parser.py:135-146 | a group has exactly one entry per member in declaration order, member k evaluated on the same input as all others; it fails exactly when a member fails, with the first failing member's error |
| Semantics.ChainAfterNormal | jsonexplorer/parser.py:126-129 | after a segment that selects one value, the chain is the tail evaluated once on that value |
| Semantics.LoneSegmentReadings | jsonexplorer/parser.py:112-133 | a lone segment gives the same result whether it is read as a one-segment chain or as a bare expr |
| Semantics.QuotedKeyIsRawText | jsonexplorer/parser.py:181-184 | a quoted key `"s"` selects exactly what the identifier `s` selects |
| Semantics.PlainChainIsWalk | jsonexplorer/parser.py:120-133 | a chain without wildcards equals walking its segments one after another, each looking up in what the previous found, stopping at the first failure |
| Flatten.Flatten | jsonexplorer/parser.py:84-91 | a non-list flattens to the one-element list holding it; the output never contains a list |
| Flatten.FlattenItems | jsonexplorer/parser.py:86-89 | the concatenated flattenings of a list's items contain no list |
| Flatten.FlattenResults | jsonexplorer/parser.py:75-82 | a list result gives one row per top-level element (none for an empty list), row i the flattening of element i; any other result gives one single-cell row; no cell is a list |
| Flatten.FlattenItemsAppend | jsonexplorer/parser.py:86-89 | flattening a concatenation is the concatenation of the flattenings |
| Flatten.FlattenFlatIsIdentity | jsonexplorer/parser.py:84-91 | flattening a list that holds no list returns it unchanged |
| Flatten.FlattenIdempotent | jsonexplorer/parser.py:84-91 | flattening an already flattened result changes nothing |
| Flatten.FlattenHoldsLeaves | jsonexplorer/parser.py:84-91 | a value occurs in the flattening exactly when it is a non-list reached by descending through lists |
| Flatten.FlattenItemsHoldsLeaves | jsonexplorer/parser.py:86-89 | a value occurs in the items' flattening exactly when it is a leaf of one of the items |
| Flatten.RowsJoinToFlatten | jsonexplorer/parser.py:75-91 | the rows of a list result, laid end to end, are the flattening of the whole result |
| Flatten.FlatResultRows | jsonexplorer/parser.py:75-82 | a list result holding no list gives one single-cell row per item |
| Flatten.FlattenLoop | jsonexplorer/parser.py:84-91 | the append loop of `flatten` computes the recursive flattening |
| Flatten.FlattenResultsLoop | jsonexplorer/parser.py:75-82 | the append loop of `flatten_results` computes the rows |
| Explorer.Init | jsonexplorer/parser.py:41-42 | a new explorer has no parsed query and a `None` result |
| Explorer.Parse | jsonexplorer/parser.py:45-52 | parsing stores the query and keeps the last result |
| Explorer.Explore | jsonexplorer/parser.py:54-63 | without a parsed query it fails with NotParsed and changes nothing; otherwise it succeeds exactly when the query evaluates, returns and stores that value, and on failure leaves the explorer unchanged |
| Explorer.ParseAndExplore | jsonexplorer/parser.py:65-73 | the new query stays parsed whatever happens; success and value are those of evaluating it; a failure keeps the previous result |
| Explorer.FlattenResults | jsonexplorer/parser.py:75-82 | the rows of the stored result: one per element of a list, else one single-cell row |
| Explorer.FlattenBeforeExplore | jsonexplorer/parser.py:75-82 | before any exploration the rows are the single cell `None`, parsed query or not |
| Explorer.ExploreReusesQuery | jsonexplorer/parser.py:54-73 | exploring a second document with a query already parsed gives what parsing it afresh would |
| UnitTests.GroupValues | jsonexplorer/parser.py:135-146 | a group whose members succeed with given values yields exactly those values, in order |
| UnitTests.FanOutValues | jsonexplorer/parser.py:126-131 | a wildcard whose tail succeeds on every element yields those results, in order |
| UnitTests.KeyStringCname | tests/test_jsonexplorer.py:31-38 | `object` and `object2` select their strings |
| UnitTests.KeyStringQuoted | tests/test_jsonexplorer.py:40-47 | quoted keys with spaces select their strings |
| UnitTests.KeyIntIndex | tests/test_jsonexplorer.py:49-56 | `0` and `1` select the elements of `["a","b"]` |
| UnitTests.KeyIntWildcard | tests/test_jsonexplorer.py:58-65 | `*` on `["a","b"]` gives `["a","b"]` |
| UnitTests.ChainOfKeys | tests/test_jsonexplorer.py:67-76 | `object.name` gives `"toto"` and `object.value` gives `2` |
| UnitTests.GroupAfterKey | tests/test_jsonexplorer.py:78-90 | `object.{name,value}`, `object.{name,"last name"}` and the three-member group give their lists in order |
| UnitTests.GroupAfterWildcardOrIndex | tests/test_jsonexplorer.py:92-107 | `object.*.{name,last_name}` gives one pair per element; `object.0.{…}` gives the first pair |
| UnitTests.ExtraFields | tests/test_jsonexplorer.py:109-129 | `extra.value` and `extra.date` select the nested fields of the test's objects |
| UnitTests.NestedChainInGroupWildcard | tests/test_jsonexplorer.py:109-131 | `object.*.{name,extra.value}` gives `[["a",0],["b",1]]` |
| UnitTests.NestedChainInGroupIndex | tests/test_jsonexplorer.py:109-132 | `object.0.{name,extra.value,extra.date}` gives `["a",0,"01/01"]` |
| UnitTests.KeyOnNumberFails | jsonexplorer/parser.py:153 | `object.bad` on `{"object":5}` is a type error carrying the number |

## Left out

- Query-string parsing: it is done by the external `lark` library from the grammar text at jsonexplorer/parser.py:14-38, so the model takes the parse tree as input, `Parse` is total, and syntax errors do not occur.
- The empty query and the empty group `{}`: the grammar admits them, but the visitor then reads a missing child and crashes; the tree type has no empty chain and no empty group.
- The flat reading of a chain, `list_req(expr, expr_list, expr_list, …)`, which the ambiguous grammar also allows: the visitor reads only its first two children; the model nests chains to the right, the reading the repository's tests rely on.
- Python quirks: an index or `*` on a string (gives a character or a list of characters), `*` on an object (an empty object gives `[]`), an index on an object (a `KeyError`). The model treats every index or wildcard on a non-array as a type error.
- The exact Python exception classes and messages: failures are the `Error` datatype; `Error` records the missing key, the index and length, or the value that was not an object or array.
- The `raise Exception(...)` branches of `node_key_int` and `node_expr` for an unknown child node, and the fall-through of `node_list_req` when a wildcard result is not a list: the closed tree type rules the first out, and `EvalExpr` proves a wildcard result is always the input array.
- Floating-point numbers (numbers are `int`) and the key order of objects, which the evaluator never observes.
- `logging` and `json.dumps` debug output, and the unused `result`/`ptr` fields of `NodeVisitors`: no effect on results.
- jsonexplorer/cli.py (argument handling, file and stdin reading, `json.loads`, column-aligned printing) and setup.py: I/O and packaging.
- The console tests in tests/test_jsonexplorer.py:6-29 run the program as a subprocess; data/test.json is not part of this model.
