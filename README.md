# Tool-parameter coercion hook, in Dafny

This project models `ToolParameterCoercionHook`. The hook runs before a tool call. It reads the tool's JSON-Schema input
schema. For each declared parameter, it rewrites an argument that arrived as a string into the declared type: integer,
number, boolean, array or object. It does this in place, in the call's argument dictionary.

The model has five modules:

- `Values`: the runtime values of the tool-calling layer (`Null`, `Bool`, `Int`, `Real`, `Str`, `List`, `Dict`). It
  also holds the two exceptions that can escape the hook, and the `Library` of library parsers. `json.loads` and
  `float()` are its parameters.
- `Text`: the Python string methods the hook uses. `str.strip` is modelled over Python's full `isspace` set. The module
  also has `lower`, `startswith` and `split(",")`, with `split` proved to be the unique inverse of `join`.
- `PyInt`: `int()` on text, as a concrete decimal parser. It accepts white space, a sign, and digits with single
  underscores between them. It is proved to read back `str(n)` for every integer.
- `Coercion`: `_type_matches`, `_string_to_boolean`, `_string_to_array` and `_convert_value`.
- `Hook`: `_coerce_parameters`.
  - It resolves the declared properties, including the one-level `"json"` unwrap.
  - It walks them in an imperative loop that overwrites entries of the argument dictionary held by a `ToolUse` object.
  - It reports whether it skipped, finished (and whether it modified anything), or let an exception escape.
  - Its contract ties the new dictionary to `Coerced`, a function of the old one. The properties of the pass are proved
    about `Coerced`.

A sixth module, `Scenarios`, states the cases of the hook's test suite on the model. Where it can, it states them for
whole families of inputs rather than single literals. Examples: any list of words joined by `", "`, and the text of any
natural number.

Where the hook's documented behaviour and its code disagree, the model follows the code:

- A schema `type` that is a list or a dict cannot be looked up in the type table. Python raises `TypeError`, which
  escapes the hook. `TypeMatches` returns `Err` for it.
- A parameter schema that is not a dict raises `AttributeError` at `param_schema.get`, outside the hook's `try`.
- An `items` entry that is not a dict raises `AttributeError` on the comma path of the array conversion.
- The hook catches none of these, so `CoerceEntry` and `CoerceParameters` report them as `Raised`.
- A Python `bool` is an `int`, so a boolean matches `integer` and `number`.
- The `object` branch returns whatever `json.loads` returns. The result need not be a dict.
- The single-element array fallback holds the stripped text, not the original.
- A text that parses as a JSON list is returned before any element conversion.
- A `tool_spec`, input schema or `properties` value that is not a dict always makes the hook skip the call.
  - A `tool_spec` that is not a dict has no `.get`, so the read at line 104 raises inside the `try`, which only logs.
  - An `inputSchema` that is not a dict raises inside the same `try` at one of three places. The `"json" in` test at
    line 108 raises `TypeError` for a number, a boolean or `None`. The indexing at line 110 raises `TypeError` for a
    string or a list that holds `"json"`. Otherwise the `.get` at line 112 raises.
  - A `"json"` entry that is not a dict raises at the `.get` at line 112.
  - A `properties` value that is not a dict survives `.get`. The eager log formatting at lines 115-119 then applies
    `len`, indexing or `.keys()` to it, and that raises inside the same `try`.

## Model

| member | source | states |
|---|---|---|
| Text.TrimStartSpec | costq_agents/agent/hooks/tool_parameter_coercion.py:264 | the leading white space `strip()` drops is all white space and what is kept does not start with white space |
| Text.TrimEndSpec | costq_agents/agent/hooks/tool_parameter_coercion.py:264 | the trailing white space `strip()` drops is all white space and what is kept does not end with white space |
| Text.TrimIsSlice | costq_agents/agent/hooks/tool_parameter_coercion.py:264 | `Text.Strip`, which models `strip()`, keeps a contiguous slice of the text with only white space cut on either side, and gives empty text exactly when the text is all white space |
| Text.StripIdempotent | costq_agents/agent/hooks/tool_parameter_coercion.py:280 | stripping an already stripped piece changes nothing |
| Text.SplitJoin | costq_agents/agent/hooks/tool_parameter_coercion.py:280 | the pieces of `Text.Split`, which models `split(",")`, hold no comma and joined with commas give back the text |
| Text.SplitUnique | costq_agents/agent/hooks/tool_parameter_coercion.py:280 | `split(",")` is the only way to cut a text into comma-free pieces that join back to it |
| PyInt.ParseAlphabet | costq_agents/agent/hooks/tool_parameter_coercion.py:198 | a text that `PyInt.Parse`, which models `int()`, accepts holds only digits, underscores, signs and white space |
| PyInt.ParseShow | costq_agents/agent/hooks/tool_parameter_coercion.py:198 | `int(str(n)) == n` for every integer |
| PyInt.ParseRejectsChar | costq_agents/agent/hooks/tool_parameter_coercion.py:198 | `int()` raises `ValueError` on any text holding a comma, a letter or another foreign character |
| Coercion.TypeNamedIsName | costq_agents/agent/hooks/tool_parameter_coercion.py:232-239 | the type table holds exactly the six JSON Schema names, each for its own type |
| Coercion.TypeMatches | costq_agents/agent/hooks/tool_parameter_coercion.py:222-245 | raises exactly for a list or dict type, fails to match only for a known name, and a string fails exactly for the five non-string names |
| Coercion.TypeTable | costq_agents/agent/hooks/tool_parameter_coercion.py:232-245 | the table row by row (a bool counts as an int and as a number) and `true` for every name outside it |
| Coercion.IntegerMatchesNumber | costq_agents/agent/hooks/tool_parameter_coercion.py:234-235 | whatever matches `integer` matches `number` |
| Coercion.StringToBooleanSpec | costq_agents/agent/hooks/tool_parameter_coercion.py:297-307 | `Coercion.StringToBoolean`, which models the lexer, is total and true exactly for a case variant of "true", "1", "yes" or "on" |
| Coercion.FalsyWords | costq_agents/agent/hooks/tool_parameter_coercion.py:307 | every case variant of "false", "0", "no", "off" and the empty text reads as false |
| Coercion.PiecesAreStripped | costq_agents/agent/hooks/tool_parameter_coercion.py:280 | each piece that `Coercion.Pieces`, which models the filtering comprehension, keeps is non-empty and stripped |
| Coercion.PiecesAppend | costq_agents/agent/hooks/tool_parameter_coercion.py:280 | filtering keeps the order of the parts |
| Coercion.PiecesMembership | costq_agents/agent/hooks/tool_parameter_coercion.py:280 | a text is a piece exactly when it is non-empty and some part strips to it |
| Coercion.PiecesEmpty | costq_agents/agent/hooks/tool_parameter_coercion.py:280-284 | no piece remains exactly when every part is white space |
| Coercion.FallbackOnlySeparators | costq_agents/agent/hooks/tool_parameter_coercion.py:283-284 | the single-element fallback only happens for text made of commas and white space that starts with a comma |
| Coercion.ParseAll | costq_agents/agent/hooks/tool_parameter_coercion.py:290-293 | the element comprehension succeeds exactly when every element parses, and then holds each element's value in order |
| Coercion.StringToArray | costq_agents/agent/hooks/tool_parameter_coercion.py:247-295 | the only exception that escapes is `AttributeError` from a non-dict `items`, which `Coercion.ItemsType` models; a `ValueError` only comes from numeric element conversion |
| Coercion.StringToArrayRules | costq_agents/agent/hooks/tool_parameter_coercion.py:264-295 | on the stripped text: a `[`-prefixed text that `json.loads` reads as a list is returned as is; empty text gives `[]`; any other text, including `[`-prefixed text `json.loads` rejects, becomes the comma pieces or the single stripped text, kept as strings unless `items.type` asks for numbers, and a non-dict `items` raises `AttributeError` |
| Coercion.IntegerElements | costq_agents/agent/hooks/tool_parameter_coercion.py:286-291 | for any non-empty text that is not a JSON list, with `items.type` "integer" the result succeeds exactly when every element text is an integer, and then holds those integers in order |
| Coercion.NumberElements | costq_agents/agent/hooks/tool_parameter_coercion.py:292-293 | for any non-empty text that is not a JSON list, with `items.type` "number" the result succeeds exactly when `float()` accepts every element text, and then holds those numbers in order |
| Coercion.Dispatch | costq_agents/agent/hooks/tool_parameter_coercion.py:193-207 | a successful branch other than `object` yields a value of the declared type, only the array branch lets an exception through, and the boolean branch always succeeds |
| Coercion.ConvertValue | costq_agents/agent/hooks/tool_parameter_coercion.py:167-220 | a matching value and a non-string come back identical with `changed=false`, an unchanged result is the original value, a changed result matches the declared type (except `object`), exceptions escape only from the type lookup or the array path, and the boolean branch always reports a change |
| Coercion.UnknownTypeKeepsValue | costq_agents/agent/hooks/tool_parameter_coercion.py:241-243 | a type name outside the table never causes a conversion |
| Coercion.FailedParseKeepsString | costq_agents/agent/hooks/tool_parameter_coercion.py:196-220 | a rejected integer, number or object text comes back unchanged with `changed=false` and no exception |
| Coercion.ConvertIdempotent | costq_agents/agent/hooks/tool_parameter_coercion.py:184-186 | converting a converted value again changes nothing, for every type but `object` |
| Coercion.IntegerRoundTrip | costq_agents/agent/hooks/tool_parameter_coercion.py:197-198 | the text of any integer declared `integer` converts to that integer |
| Coercion.NumericElementsAllOrNothing | costq_agents/agent/hooks/tool_parameter_coercion.py:286-291 | for any non-empty text that is not a JSON list, with integer elements the array conversion changes the value exactly when every element parses, and otherwise keeps the original string |
| Coercion.NumberElementsAllOrNothing | costq_agents/agent/hooks/tool_parameter_coercion.py:292-293 | the same all-or-nothing rule for `float()` elements |
| Coercion.FallbackText | costq_agents/agent/hooks/tool_parameter_coercion.py:283-284 | the single fallback element starts with a comma and `int()` rejects it |
| Coercion.FallbackArrayFails | costq_agents/agent/hooks/tool_parameter_coercion.py:283-291 | with integer elements the single-element fallback always fails with `ValueError` |
| Coercion.FallbackNeverInteger | costq_agents/agent/hooks/tool_parameter_coercion.py:283-295 | hence such a string declared as an integer array is left as it is |
| Hook.ResolveProperties | costq_agents/agent/hooks/tool_parameter_coercion.py:124-126 | properties that resolve are never empty: empty properties mean skipping |
| Hook.ResolveShape | costq_agents/agent/hooks/tool_parameter_coercion.py:99-126 | properties resolve exactly when the tool spec is a dict, its `inputSchema` (when present) is a dict, the schema it holds (under `"json"` when present) is a dict, and that schema's `properties` is a non-empty dict, and they are then that dict; every other shape means skipping |
| Hook.UnwrapJson | costq_agents/agent/hooks/tool_parameter_coercion.py:107-110 | a schema wrapped under `"json"` resolves like the schema itself |
| Hook.ResolvePlain | costq_agents/agent/hooks/tool_parameter_coercion.py:104-112 | a plain schema with non-empty `properties` resolves to them |
| Hook.CoerceEntry | costq_agents/agent/hooks/tool_parameter_coercion.py:134-150 | only a string argument of a parameter that declares a type is overwritten, the new value matches that type (except `object`), and the escaping exceptions come from a non-dict schema, a list or dict type, or the array path |
| Hook.Coerced | costq_agents/agent/hooks/tool_parameter_coercion.py:128-162 | the pass never adds or removes a key of the input |
| Hook.CoercedFrame | costq_agents/agent/hooks/tool_parameter_coercion.py:128-162 | undeclared and unprocessed arguments keep their value, and a changed argument was a string rewritten under a declared, typed name |
| Hook.CoercedStep | costq_agents/agent/hooks/tool_parameter_coercion.py:130-150 | one loop iteration changes at most its own argument |
| Hook.CoerceParameters | costq_agents/agent/hooks/tool_parameter_coercion.py:68-165 | skips when no tool, a non-dict input or no properties; otherwise raises exactly when some present parameter raises, and on completion leaves `Coerced` of the old input and reports a change exactly when some argument was rewritten |
| Hook.Walk | costq_agents/agent/hooks/tool_parameter_coercion.py:128-162 | the loop over the properties: complete result, modified flag, or the escaping exception after the earlier properties were applied |
| Hook.PassIdempotent | costq_agents/agent/hooks/tool_parameter_coercion.py:128-162 | a second pass over the output of a pass that raised nothing and whose `object` arguments became dicts changes nothing and raises nothing |
| Scenarios.CommaSeparated | tests/agent/hooks/test_tool_parameter_coercion.py:256-259 | any words joined by ", " become the list of the words |
| Scenarios.SingleValue | tests/agent/hooks/test_tool_parameter_coercion.py:261-264 | a single word becomes the one-element list |
| Scenarios.EmptyText | tests/agent/hooks/test_tool_parameter_coercion.py:42-46 | the empty text declared as an array becomes `[]` with `changed=true` |
| Scenarios.UnparsedBracket | costq_agents/agent/hooks/tool_parameter_coercion.py:266-280 | `"[a, b"`, which `json.loads` rejects, is split on commas into `"[a"` and `"b"` |
| Scenarios.JsonList | tests/agent/hooks/test_tool_parameter_coercion.py:30-34 | a JSON list text becomes the list `json.loads` returns |
| Scenarios.IntegerItems | tests/agent/hooks/test_tool_parameter_coercion.py:271-275 | the texts of any natural numbers joined by ", " become the numbers under integer elements |
| Scenarios.NumberItems | tests/agent/hooks/test_tool_parameter_coercion.py:277-281 | words `float()` accepts, joined by ", ", become their numbers under number elements |
| Scenarios.InvalidInteger | tests/agent/hooks/test_tool_parameter_coercion.py:138-142 | "abc" declared as an integer stays "abc" with `changed=false` |
| Scenarios.TruthyWords | tests/agent/hooks/test_tool_parameter_coercion.py:235-239 | "TRUE", "Yes", "On" and "1" read as true |
| Scenarios.FalsyExamples | tests/agent/hooks/test_tool_parameter_coercion.py:241-245 | "False", "OFF", "0" and the empty text read as false |
| Scenarios.Workflow | tests/agent/hooks/test_tool_parameter_coercion.py:154-191 | a pass over the five-parameter example keeps the keys and converts each argument to its declared type |

## Left out

- Logging and the `print` to standard error throughout `_coerce_parameters` and `_convert_value` are left out. They are
  observability only.
- The only effect of logging that is kept: the eager formatting at lines 115-119 makes a malformed `properties` value
  skip the call.
- `register_hooks` and the `HookProvider`/`BeforeToolCallEvent` plumbing of the agent framework are left out. The
  event is replaced by the selected tool's `tool_spec` and a `ToolUse` object.
- `json.loads` and `float()` are parameters of the model (`Library`), not implementations. `Real` is a mathematical
  real, so `inf`, `nan` and rounding are not represented. A `RecursionError` from deeply nested JSON is not modelled.
- Coercion.StringToArray: `Library.jsonLoads` returning `None` stands for every `ValueError` of `json.loads`, but
  `_string_to_array` catches only `json.JSONDecodeError` (line 272). A plain `ValueError`, such as a JSON integer over
  Python's 4300-digit limit inside a `[`-prefixed text, leaves `_string_to_array` and is caught at line 209, so the
  string stays with `changed=false`. The model instead splits such a text on commas.
- `PyInt.Parse` does not model Unicode decimal digits, which CPython's `int()` also accepts. It also does not model the
  4300-digit limit on integer conversion.
- `Text.Lower` maps ASCII letters only. No non-ASCII character lowers to a letter of "true", "yes" or "on", so the
  boolean lexer is exact.
- `Hook.Walk`: the order in which the properties are visited is a free choice. Python uses insertion order. The order
  is only observable when an exception escapes part-way; the contract then states that some set of properties was
  already applied, without naming which.
- `Hook.CoerceParameters`: a missing `input` entry is modelled as an empty argument dictionary. In the source, the
  default `{}` is a fresh dictionary that nobody sees again, so nothing observable changes either way.
- `Hook.ToolUse`: the aliasing between the argument dictionary and the caller's event is reduced to the object's single
  `input` field.
- `costq_agents/config/settings.py` is not part of this model. It holds configuration loading, environment checks, an
  HTTP metadata probe and a secrets lookup.
- The database package re-exports and the deprecated GCP server stub are not part of this model. They hold no logic.
