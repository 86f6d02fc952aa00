/** The value converter of `ToolParameterCoercionHook`: the type table
    (`_type_matches`), the boolean lexer (`_string_to_boolean`), the array
    heuristic (`_string_to_array`) and the per-value converter
    (`_convert_value`). */
module Coercion {
  import opened Values
  import opened Text
  import PyInt

  /** The six JSON Schema type names (JSON Schema Validation, section 6.1.1)
      the hook's type table knows; `null` is not among them. */
  datatype SchemaType = StringType | IntegerType | NumberType | BooleanType | ArrayType | ObjectType

  function Name(t: SchemaType): string {
    match t
    case StringType => "string"
    case IntegerType => "integer"
    case NumberType => "number"
    case BooleanType => "boolean"
    case ArrayType => "array"
    case ObjectType => "object"
  }

  /** Lookup in the type table; `None` for a name outside it. */
  function TypeNamed(name: string): Option<SchemaType> {
    if name == "string" then Some(StringType)
    else if name == "integer" then Some(IntegerType)
    else if name == "number" then Some(NumberType)
    else if name == "boolean" then Some(BooleanType)
    else if name == "array" then Some(ArrayType)
    else if name == "object" then Some(ObjectType)
    else None
  }

  /** The table holds exactly the six names, each for its own type. */
  lemma TypeNamedIsName(name: string, t: SchemaType)
    ensures TypeNamed(name) == Some(t) <==> name == Name(t)
  {
  }

  /** `isinstance(v, type_map[t])`.  A Python `bool` is an `int`, so a
      boolean is accepted where an integer or a number is expected. */
  predicate IsInstance(v: Value, t: SchemaType) {
    match t
    case StringType => v.Str?
    case IntegerType => v.Int? || v.Bool?
    case NumberType => v.Int? || v.Bool? || v.Real?
    case BooleanType => v.Bool?
    case ArrayType => v.List?
    case ObjectType => v.Dict?
  }

  /** `_type_matches(value, expected_type)`.  The schema's `type` entry can
      be any JSON value: a list or a dict cannot be looked up in the table
      (Python raises `TypeError`), and any other value outside the table
      counts as a match.  A string therefore fails to match exactly the five
      known non-string types. */
  function TypeMatches(v: Value, expected: Value): (r: Result<bool>)
    ensures r.Err? <==> expected.List? || expected.Dict?
    ensures r == Ok(false) ==> expected.Str? && TypeNamed(expected.s).Some?
    ensures v.Str? ==> (r == Ok(false) <==> expected.Str? && expected.s in {"integer", "number", "boolean", "array", "object"})
  {
    match expected
    case List(_) => Err(TypeError)
    case Dict(_) => Err(TypeError)
    case Str(name) =>
      (match TypeNamed(name)
       case None => Ok(true)
       case Some(t) => Ok(IsInstance(v, t)))
    case _ => Ok(true)
  }

  /** The table row by row, and the fallback for names outside it. */
  lemma TypeTable(v: Value, name: string)
    ensures TypeMatches(v, Str("string")) == Ok(v.Str?)
    ensures TypeMatches(v, Str("integer")) == Ok(v.Int? || v.Bool?)
    ensures TypeMatches(v, Str("number")) == Ok(v.Int? || v.Bool? || v.Real?)
    ensures TypeMatches(v, Str("boolean")) == Ok(v.Bool?)
    ensures TypeMatches(v, Str("array")) == Ok(v.List?)
    ensures TypeMatches(v, Str("object")) == Ok(v.Dict?)
    ensures name !in {"string", "integer", "number", "boolean", "array", "object"} ==> TypeMatches(v, Str(name)) == Ok(true)
  {
  }

  /** Every value that matches `integer` also matches `number`. */
  lemma IntegerMatchesNumber(v: Value)
    requires TypeMatches(v, Str("integer")) == Ok(true)
    ensures TypeMatches(v, Str("number")) == Ok(true)
  {
  }

  // ---------------------------------------------------------------- booleans

  /** The texts that read as true once lower-cased. */
  const Truthy: set<string> := {"true", "1", "yes", "on"}

  /** `_string_to_boolean(value)`: total; true exactly for the truthy words. */
  function StringToBoolean(s: string): bool {
    Lower(s) in Truthy
  }

  /** `s` spells the lower-case word `w` with any of its letters in upper case. */
  predicate CaseVariant(s: string, w: string) {
    |s| == |w| && forall i :: 0 <= i < |s| ==> s[i] == w[i] || s[i] == UpperChar(w[i])
  }

  predicate NoUpper(w: string) {
    forall i :: 0 <= i < |w| ==> !('A' <= w[i] <= 'Z')
  }

  lemma LowerIsCaseVariant(s: string, w: string)
    requires NoUpper(w)
    ensures Lower(s) == w <==> CaseVariant(s, w)
  {
    if CaseVariant(s, w) {
      assert forall i :: 0 <= i < |s| ==> Lower(s)[i] == w[i];
    }
  }

  /** A text reads as true exactly when it is one of the four truthy words
      in any mixture of upper and lower case. */
  lemma {:induction false} StringToBooleanSpec(s: string)
    ensures StringToBoolean(s) <==> exists w :: w in Truthy && CaseVariant(s, w)
  {
    forall w | w in Truthy ensures Lower(s) == w <==> CaseVariant(s, w) {
      LowerIsCaseVariant(s, w);
    }
  }

  /** Every case variant of "false", "0", "no", "off" and the empty text
      reads as false. */
  lemma {:induction false} FalsyWords(s: string, w: string)
    requires w in {"false", "0", "no", "off", ""} && CaseVariant(s, w)
    ensures !StringToBoolean(s)
  {
    LowerIsCaseVariant(s, w);
  }

  // ------------------------------------------------------------------ arrays

  /** A non-empty text with no white space at either end. */
  predicate IsPiece(x: string) {
    x != [] && Strip(x) == x
  }

  /** `[p.strip() for p in parts if p.strip()]`: the stripped parts, empty
      ones dropped, in their order. */
  function Pieces(parts: seq<string>): (r: seq<string>)
    ensures |r| <= |parts|
  {
    if parts == [] then []
    else
      var p := Strip(parts[0]);
      (if p == [] then [] else [p]) + Pieces(parts[1..])
  }

  /** Each piece is non-empty and already stripped. */
  lemma {:induction false} PiecesAreStripped(parts: seq<string>)
    ensures forall i :: 0 <= i < |Pieces(parts)| ==> IsPiece(Pieces(parts)[i])
    decreases |parts|
  {
    if parts != [] {
      PiecesAreStripped(parts[1..]);
      var p := Strip(parts[0]);
      StripIdempotent(parts[0]);
      var head := if p == [] then [] else [p];
      assert forall i :: 0 <= i < |head| ==> IsPiece(head[i]);
      assert Pieces(parts) == head + Pieces(parts[1..]);
    }
  }

  /** Filtering keeps the order: the pieces of two runs of parts are the
      pieces of the first followed by those of the second. */
  lemma {:induction false} PiecesAppend(a: seq<string>, b: seq<string>)
    ensures Pieces(a + b) == Pieces(a) + Pieces(b)
    decreases |a|
  {
    if a == [] {
      assert a + b == b;
    } else {
      assert (a + b)[1..] == a[1..] + b;
      PiecesAppend(a[1..], b);
    }
  }

  /** A text is a piece exactly when it is non-empty and some part strips
      to it. */
  lemma {:induction false} PiecesMembership(parts: seq<string>, x: string)
    ensures x in Pieces(parts) <==> x != [] && exists i :: 0 <= i < |parts| && Strip(parts[i]) == x
    decreases |parts|
  {
    if parts != [] {
      PiecesMembership(parts[1..], x);
      if x in Pieces(parts[1..]) {
        var i :| 0 <= i < |parts[1..]| && Strip(parts[1..][i]) == x;
        assert Strip(parts[i + 1]) == x;
      }
      if x != [] && exists i :: 0 <= i < |parts| && Strip(parts[i]) == x {
        var i :| 0 <= i < |parts| && Strip(parts[i]) == x;
        if i > 0 {
          assert Strip(parts[1..][i - 1]) == x;
        }
      }
    }
  }

  /** There are no pieces exactly when every part is white space. */
  lemma {:induction false} PiecesEmpty(parts: seq<string>)
    ensures Pieces(parts) == [] <==> forall i :: 0 <= i < |parts| ==> All(parts[i], IsSpace)
    decreases |parts|
  {
    if parts != [] {
      PiecesEmpty(parts[1..]);
      TrimIsSlice(parts[0], IsSpace);
      assert forall i :: 1 <= i < |parts| ==> parts[i] == parts[1..][i - 1];
    }
  }

  /** The texts of the elements `_string_to_array` builds from stripped,
      non-empty text that is not a JSON list: the comma-separated pieces, or
      the text itself as the single element when there are none. */
  function ElementTexts(t: string): seq<string> {
    var items := Pieces(Split(t, ','));
    if items == [] then [t] else items
  }

  /** Every character of a joined text is a separator or comes from a part. */
  lemma {:induction false} JoinChars(parts: seq<string>, sep: char, k: nat)
    requires k < |Join(parts, sep)|
    ensures Join(parts, sep)[k] == sep || exists i :: 0 <= i < |parts| && Join(parts, sep)[k] in parts[i]
    decreases |parts|
  {
    if |parts| > 1 {
      var s := Join(parts, sep);
      var rest := Join(parts[1..], sep);
      assert s == parts[0] + [sep] + rest;
      if k < |parts[0]| {
        assert s[k] == parts[0][k];
      } else if k > |parts[0]| {
        JoinChars(parts[1..], sep, k - |parts[0]| - 1);
        assert s[k] == rest[k - |parts[0]| - 1];
        if s[k] != sep {
          var i :| 0 <= i < |parts[1..]| && rest[k - |parts[0]| - 1] in parts[1..][i];
          assert s[k] in parts[i + 1];
        }
      }
    } else {
      assert parts[0][k] == Join(parts, sep)[k];
    }
  }

  /** The single-element fallback only happens for stripped text made of
      commas and white space, with a comma first. */
  lemma {:induction false} FallbackOnlySeparators(t: string)
    requires t != [] && Strip(t) == t
    requires Pieces(Split(t, ',')) == []
    ensures t[0] == ','
    ensures forall k :: 0 <= k < |t| ==> t[k] == ',' || IsSpace(t[k])
  {
    var parts := Split(t, ',');
    SplitJoin(t, ',');
    PiecesEmpty(parts);
    forall k | 0 <= k < |t| ensures t[k] == ',' || IsSpace(t[k]) {
      JoinChars(parts, ',', k);
      if t[k] != ',' {
        var i :| 0 <= i < |parts| && t[k] in parts[i];
        var j :| 0 <= j < |parts[i]| && parts[i][j] == t[k];
        assert All(parts[i], IsSpace);
      }
    }
  }

  /** Converts every text with `parse`, failing as a whole when one does not
      convert: the comprehension `[int(x) for x in xs]` stops at the first
      `ValueError`. */
  function ParseAll(xs: seq<string>, parse: string -> Option<Value>): (r: Option<seq<Value>>)
    ensures r.Some? <==> forall i :: 0 <= i < |xs| ==> parse(xs[i]).Some?
    ensures r.Some? ==> |r.value| == |xs| && forall i :: 0 <= i < |xs| ==> r.value[i] == parse(xs[i]).value
    decreases |xs|
  {
    if xs == [] then Some([])
    else
      match (parse(xs[0]), ParseAll(xs[1..], parse))
      case (Some(v), Some(rest)) => Some([v] + rest)
      case _ => None
  }

  /** `int(x)` as a value. */
  function IntOf(x: string): Option<Value> {
    match PyInt.Parse(x)
    case Some(n) => Some(Int(n))
    case None => None
  }

  /** `float(x)` as a value. */
  function RealOf(lib: Library, x: string): Option<Value> {
    match lib.parseFloat(x)
    case Some(f) => Some(Real(f))
    case None => None
  }

  function Strs(xs: seq<string>): (r: seq<Value>)
    ensures |r| == |xs| && forall i :: 0 <= i < |xs| ==> r[i] == Str(xs[i])
  {
    seq(|xs|, i requires 0 <= i < |xs| => Str(xs[i]))
  }

  /** `param_schema.get("items", {}).get("type")`: the element type, `Null`
      when there is none, or the `AttributeError` raised when `items` is not
      a dict. */
  function ItemsType(paramSchema: map<string, Value>): Result<Value> {
    var items := if "items" in paramSchema then paramSchema["items"] else Dict(map[]);
    if !items.Dict? then Err(AttributeError)
    else if "type" in items.fields then Ok(items.fields["type"])
    else Ok(Null)
  }

  /** The stripped text `t` starts with `[` and `json.loads` reads it as a
      list.  Text that starts with `[` but does not parse as a list (`"[1, 2"`,
      a Python repr such as `"['a', 'b']"`) goes on to the comma split. */
  predicate JsonListText(lib: Library, t: string) {
    StartsWith(t, "[") && lib.jsonLoads(t).Some? && lib.jsonLoads(t).value.List?
  }

  /** `_string_to_array(value, param_schema)`.  It works on the stripped
      text: a JSON list is returned as it is parsed; empty text is the empty
      list; otherwise the elements are `ElementTexts`, converted to integers
      or numbers when the schema declares `items.type` so, where one element
      that does not convert fails the whole conversion. */
  function StringToArray(lib: Library, value: string, paramSchema: map<string, Value>): (r: Attempt<seq<Value>>)
    ensures r.Escape? ==> r.error == AttributeError && "items" in paramSchema && !paramSchema["items"].Dict?
    ensures r.ValueError? ==> ItemsType(paramSchema) in {Ok(Str("integer")), Ok(Str("number"))}
  {
    var t := Strip(value);
    if JsonListText(lib, t) then Success(lib.jsonLoads(t).value.items)
    else if t == [] then Success([])
    else
      var items := ElementTexts(t);
      match ItemsType(paramSchema)
      case Err(e) => Escape(e)
      case Ok(itemsType) =>
        if itemsType == Str("integer") then
          (match ParseAll(items, IntOf) case Some(vs) => Success(vs) case None => ValueError)
        else if itemsType == Str("number") then
          (match ParseAll(items, x => RealOf(lib, x)) case Some(vs) => Success(vs) case None => ValueError)
        else Success(Strs(items))
  }

  /** The rules of `_string_to_array` on the stripped text `t`: a JSON list
      is taken as it is, without element conversion; empty text gives the
      empty list; otherwise the elements are the texts of `ElementTexts(t)`,
      kept as strings unless `items.type` asks for integers or numbers. */
  lemma StringToArrayRules(lib: Library, value: string, paramSchema: map<string, Value>)
    ensures var t, r := Strip(value), StringToArray(lib, value, paramSchema);
      && (JsonListText(lib, t) ==> r == Success(lib.jsonLoads(t).value.items))
      && (t == [] ==> r == Success([]))
      && (t != [] && !JsonListText(lib, t) && ItemsType(paramSchema).Ok? && ItemsType(paramSchema).value !in {Str("integer"), Str("number")} ==>
            r == Success(Strs(ElementTexts(t))))
      && (t != [] && !JsonListText(lib, t) && ItemsType(paramSchema).Err? ==> r == Escape(AttributeError))
  {
  }

  /** With `items.type` "integer", the comma path yields integers, one per
      element text, or fails as a whole. */
  lemma {:induction false} IntegerElements(lib: Library, value: string, paramSchema: map<string, Value>)
    requires ItemsType(paramSchema) == Ok(Str("integer"))
    requires Strip(value) != [] && !JsonListText(lib, Strip(value))
    ensures var texts, r := ElementTexts(Strip(value)), StringToArray(lib, value, paramSchema);
      && (r.Success? <==> forall i :: 0 <= i < |texts| ==> PyInt.Parse(texts[i]).Some?)
      && (r.Success? ==> |r.value| == |texts| && forall i :: 0 <= i < |texts| ==> r.value[i] == Int(PyInt.Parse(texts[i]).value))
      && (!r.Success? ==> r.ValueError?)
  {
    var texts := ElementTexts(Strip(value));
    var parsed := ParseAll(texts, IntOf);
    assert StringToArray(lib, value, paramSchema) == if parsed.Some? then Success(parsed.value) else ValueError;
    assert forall i :: 0 <= i < |texts| ==> (IntOf(texts[i]).Some? <==> PyInt.Parse(texts[i]).Some?);
  }

  /** With `items.type` "number", the comma path yields `float()` of each
      element text, or fails as a whole. */
  lemma {:induction false} NumberElements(lib: Library, value: string, paramSchema: map<string, Value>)
    requires ItemsType(paramSchema) == Ok(Str("number"))
    requires Strip(value) != [] && !JsonListText(lib, Strip(value))
    ensures var texts, r := ElementTexts(Strip(value)), StringToArray(lib, value, paramSchema);
      && (r.Success? <==> forall i :: 0 <= i < |texts| ==> lib.parseFloat(texts[i]).Some?)
      && (r.Success? ==> |r.value| == |texts| && forall i :: 0 <= i < |texts| ==> r.value[i] == Real(lib.parseFloat(texts[i]).value))
      && (!r.Success? ==> r.ValueError?)
  {
    var texts := ElementTexts(Strip(value));
    var parsed := ParseAll(texts, x => RealOf(lib, x));
    assert StringToArray(lib, value, paramSchema) == if parsed.Some? then Success(parsed.value) else ValueError;
    assert forall i :: 0 <= i < |texts| ==> (RealOf(lib, texts[i]).Some? <==> lib.parseFloat(texts[i]).Some?);
  }

  // --------------------------------------------------------------- converter

  /** What `_convert_value` returns: the value to use and whether a branch
      converted it. */
  datatype Conversion = Conversion(value: Value, changed: bool)

  /** The five-way dispatch of `_convert_value` for a string `s`. */
  function Dispatch(lib: Library, s: string, t: SchemaType, paramSchema: map<string, Value>): (r: Attempt<Value>)
    requires t != StringType
    ensures r.Success? && t != ObjectType ==> IsInstance(r.value, t)
    ensures r.Escape? ==> t == ArrayType
    ensures t == BooleanType ==> r == Success(Bool(StringToBoolean(s)))
  {
    match t
    case ArrayType =>
      (match StringToArray(lib, s, paramSchema)
       case Success(xs) => Success(List(xs))
       case ValueError => ValueError
       case Escape(e) => Escape(e))
    case IntegerType =>
      (match PyInt.Parse(s) case Some(n) => Success(Int(n)) case None => ValueError)
    case NumberType =>
      (match lib.parseFloat(s) case Some(f) => Success(Real(f)) case None => ValueError)
    case BooleanType => Success(Bool(StringToBoolean(s)))
    case ObjectType =>
      (match lib.jsonLoads(s) case Some(v) => Success(v) case None => ValueError)
  }

  /** `_convert_value(value, expected_type, param_name, param_schema)`.
      A value that already matches comes back as it is; only strings are
      converted; a `ValueError` leaves the original; what a conversion
      produces has the declared type, except that the `object` branch takes
      whatever `json.loads` returns.  The only exceptions that escape are the
      table lookup of a list or dict type and a non-dict `items`. */
  function ConvertValue(lib: Library, value: Value, expected: Value, paramSchema: map<string, Value>): (r: Result<Conversion>)
    ensures TypeMatches(value, expected) == Ok(true) ==> r == Ok(Conversion(value, false))
    ensures !value.Str? && TypeMatches(value, expected).Ok? ==> r == Ok(Conversion(value, false))
    ensures r.Ok? && !r.value.changed ==> r.value.value == value
    ensures r.Ok? && r.value.changed && expected != Str("object") ==> TypeMatches(r.value.value, expected) == Ok(true)
    ensures r.Err? ==> TypeMatches(value, expected).Err? || (value.Str? && expected == Str("array"))
    ensures value.Str? && expected == Str("boolean") ==> r == Ok(Conversion(Bool(StringToBoolean(value.s)), true))
  {
    match TypeMatches(value, expected)
    case Err(e) => Err(e)
    case Ok(matches) =>
      if matches || !value.Str? then Ok(Conversion(value, false))
      else
        var t := TypeNamed(expected.s).value;
        // a string always matches "string", so this branch is never taken
        if t == StringType then Ok(Conversion(value, false))
        else
          match Dispatch(lib, value.s, t, paramSchema)
          case Success(v) => Ok(Conversion(v, true))
          case ValueError => Ok(Conversion(value, false))
          case Escape(e) => Err(e)
  }

  /** A type name outside the table never causes a conversion. */
  lemma UnknownTypeKeepsValue(lib: Library, value: Value, name: string, paramSchema: map<string, Value>)
    requires name !in {"string", "integer", "number", "boolean", "array", "object"}
    ensures ConvertValue(lib, value, Str(name), paramSchema) == Ok(Conversion(value, false))
  {
    TypeTable(value, name);
  }

  /** A string declared with one of the five non-string types is handed to
      that type's branch. */
  lemma ConvertString(lib: Library, s: string, t: SchemaType, paramSchema: map<string, Value>)
    requires t != StringType
    ensures ConvertValue(lib, Str(s), Str(Name(t)), paramSchema) ==
      match Dispatch(lib, s, t, paramSchema)
      case Success(v) => Ok(Conversion(v, true))
      case ValueError => Ok(Conversion(Str(s), false))
      case Escape(e) => Err(e)
  {
    assert TypeNamed(Name(t)) == Some(t);
    assert TypeMatches(Str(s), Str(Name(t))) == Ok(false);
  }

  /** When `int()`, `float()` or `json.loads` rejects the text, the string
      comes back unchanged and no exception escapes. */
  lemma FailedParseKeepsString(lib: Library, s: string, paramSchema: map<string, Value>)
    ensures PyInt.Parse(s).None? ==> ConvertValue(lib, Str(s), Str("integer"), paramSchema) == Ok(Conversion(Str(s), false))
    ensures lib.parseFloat(s).None? ==> ConvertValue(lib, Str(s), Str("number"), paramSchema) == Ok(Conversion(Str(s), false))
    ensures lib.jsonLoads(s).None? ==> ConvertValue(lib, Str(s), Str("object"), paramSchema) == Ok(Conversion(Str(s), false))
  {
    ConvertString(lib, s, IntegerType, paramSchema);
    ConvertString(lib, s, NumberType, paramSchema);
    ConvertString(lib, s, ObjectType, paramSchema);
  }

  /** A string declared as an array is converted by `_string_to_array`; a
      `ValueError` there leaves the string, other exceptions escape. */
  lemma ConvertArray(lib: Library, s: string, paramSchema: map<string, Value>)
    ensures ConvertValue(lib, Str(s), Str("array"), paramSchema) ==
      match StringToArray(lib, s, paramSchema)
      case Success(xs) => Ok(Conversion(List(xs), true))
      case ValueError => Ok(Conversion(Str(s), false))
      case Escape(e) => Err(e)
  {
  }

  /** Converting a converted value again changes nothing (for every type but
      `object`, whose branch may yield a non-dict). */
  lemma {:induction false} ConvertIdempotent(lib: Library, value: Value, expected: Value, paramSchema: map<string, Value>)
    requires ConvertValue(lib, value, expected, paramSchema).Ok?
    requires expected != Str("object")
    ensures var c := ConvertValue(lib, value, expected, paramSchema).value;
      ConvertValue(lib, c.value, expected, paramSchema) == Ok(Conversion(c.value, false))
  {
  }

  /** The text of any integer converts back to that integer. */
  lemma {:induction false} IntegerRoundTrip(lib: Library, n: int, paramSchema: map<string, Value>)
    ensures ConvertValue(lib, Str(PyInt.Show(n)), Str("integer"), paramSchema) == Ok(Conversion(Int(n), true))
  {
    PyInt.ParseShow(n);
  }

  /** With numeric elements declared, a comma-separated text converts exactly
      when every element parses; otherwise the original string stays. */
  lemma {:induction false} NumericElementsAllOrNothing(lib: Library, s: string, paramSchema: map<string, Value>)
    requires ItemsType(paramSchema) == Ok(Str("integer"))
    requires Strip(s) != [] && !JsonListText(lib, Strip(s))
    ensures var c := ConvertValue(lib, Str(s), Str("array"), paramSchema);
      var texts := ElementTexts(Strip(s));
      && c.Ok?
      && (c.value.changed <==> forall i :: 0 <= i < |texts| ==> PyInt.Parse(texts[i]).Some?)
      && (!c.value.changed ==> c.value.value == Str(s))
  {
    IntegerElements(lib, s, paramSchema);
    ConvertArray(lib, s, paramSchema);
  }

  /** With `float()` elements declared, the same holds: the text converts
      exactly when every element parses, and otherwise stays. */
  lemma {:induction false} NumberElementsAllOrNothing(lib: Library, s: string, paramSchema: map<string, Value>)
    requires ItemsType(paramSchema) == Ok(Str("number"))
    requires Strip(s) != [] && !JsonListText(lib, Strip(s))
    ensures var c := ConvertValue(lib, Str(s), Str("array"), paramSchema);
      var texts := ElementTexts(Strip(s));
      && c.Ok?
      && (c.value.changed <==> forall i :: 0 <= i < |texts| ==> lib.parseFloat(texts[i]).Some?)
      && (!c.value.changed ==> c.value.value == Str(s))
  {
    NumberElements(lib, s, paramSchema);
    ConvertArray(lib, s, paramSchema);
  }

  /** The single-element fallback never converts to integers: its one
      element holds a comma. */
  lemma {:induction false} FallbackNeverInteger(lib: Library, s: string, paramSchema: map<string, Value>)
    requires ItemsType(paramSchema) == Ok(Str("integer"))
    requires Strip(s) != [] && Pieces(Split(Strip(s), ',')) == []
    ensures ConvertValue(lib, Str(s), Str("array"), paramSchema) == Ok(Conversion(Str(s), false))
  {
    FallbackArrayFails(lib, s, paramSchema);
    ConvertArray(lib, s, paramSchema);
  }

  /** The text of the single-element fallback starts with a comma, so
      `int()` rejects it. */
  lemma FallbackText(s: string)
    requires Strip(s) != [] && Pieces(Split(Strip(s), ',')) == []
    ensures Strip(s)[0] == ',' && PyInt.Parse(Strip(s)) == None
  {
    StripIdempotent(s);
    FallbackOnlySeparators(Strip(s));
    PyInt.ParseRejectsChar(Strip(s), ',');
  }

  lemma {:induction false} FallbackArrayFails(lib: Library, s: string, paramSchema: map<string, Value>)
    requires ItemsType(paramSchema) == Ok(Str("integer"))
    requires Strip(s) != [] && Pieces(Split(Strip(s), ',')) == []
    ensures StringToArray(lib, s, paramSchema) == ValueError
  {
    var t := Strip(s);
    FallbackText(s);
    assert t[..1][0] == ',';
    var texts := ElementTexts(t);
    assert texts == [t];
    assert !PyInt.Parse(texts[0]).Some?;
    IntegerElements(lib, s, paramSchema);
  }
}
