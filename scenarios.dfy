/** The cases of the hook's test suite, stated on the model.  `json.loads`
    and `float()` are parameters of the model, so the cases that need them
    assume what those parsers return on the texts involved. */
module Scenarios {
  import opened Values
  import opened Text
  import opened Coercion
  import opened Hook
  import PyInt

  /** A piece after a comma loses the space in front of it. */
  lemma StripLeadingSpace(x: string)
    requires x != [] && !IsSpace(x[0]) && !IsSpace(x[|x| - 1])
    ensures Strip([' '] + x) == x
  {
    assert ([' '] + x)[1..] == x;
    assert TrimStart([' '] + x, IsSpace) == TrimStart(x, IsSpace);
    TrimNoop(x, IsSpace);
  }

  /** A word an element text can be: non-empty, no comma, no white space
      at either end. */
  predicate Word(x: string) {
    x != [] && ',' !in x && !IsSpace(x[0]) && !IsSpace(x[|x| - 1])
  }

  /** The words, each with a space in front. */
  function Prefixed(ws: seq<string>): (r: seq<string>)
    ensures |r| == |ws|
  {
    if ws == [] then [] else [[' '] + ws[0]] + Prefixed(ws[1..])
  }

  /** The parts of words joined by ", " as `split(",")` cuts them: every
      word after the first keeps the space in front of it. */
  function Padded(ws: seq<string>): (r: seq<string>)
    requires |ws| > 0
  {
    [ws[0]] + Prefixed(ws[1..])
  }

  /** Words joined by ", ", as a model writes a list by hand. */
  function Listed(ws: seq<string>): string
    requires |ws| > 0
  {
    Join(Padded(ws), ',')
  }

  /** Stripping each space-prefixed word gives the words back. */
  lemma {:induction false} PiecesOfPrefixed(ws: seq<string>)
    requires forall i :: 0 <= i < |ws| ==> Word(ws[i])
    ensures Pieces(Prefixed(ws)) == ws
    decreases |ws|
  {
    if ws != [] {
      StripLeadingSpace(ws[0]);
      PiecesOfPrefixed(ws[1..]);
      PiecesCons([' '] + ws[0], Prefixed(ws[1..]));
      assert ws == [ws[0]] + ws[1..];
    }
  }

  /** A part that does not strip to nothing contributes its stripped text. */
  lemma PiecesCons(p: string, rest: seq<string>)
    requires Strip(p) != []
    ensures Pieces([p] + rest) == [Strip(p)] + Pieces(rest)
  {
    assert ([p] + rest)[1..] == rest;
  }

  /** No space-prefixed word holds a comma. */
  lemma {:induction false} PrefixedNoComma(ws: seq<string>)
    requires forall i :: 0 <= i < |ws| ==> Word(ws[i])
    ensures forall i :: 0 <= i < |ws| ==> ',' !in Prefixed(ws)[i]
    ensures ws != [] ==> Prefixed(ws)[|ws| - 1] == [' '] + ws[|ws| - 1]
    decreases |ws|
  {
    if ws != [] {
      PrefixedNoComma(ws[1..]);
      var parts := Prefixed(ws);
      assert parts == [[' '] + ws[0]] + Prefixed(ws[1..]);
      assert Word(ws[0]);
      assert forall i :: 1 <= i < |ws| ==> parts[i] == Prefixed(ws[1..])[i - 1];
    }
  }

  /** A join ends with the last character of its last part. */
  lemma {:induction false} JoinLast(parts: seq<string>, sep: char)
    requires |parts| > 0 && parts[|parts| - 1] != []
    ensures var j, l := Join(parts, sep), parts[|parts| - 1]; |j| > 0 && j[|j| - 1] == l[|l| - 1]
    decreases |parts|
  {
    if |parts| > 1 {
      JoinLast(parts[1..], sep);
    }
  }

  /** The element texts of words joined by ", " are the words. */
  lemma {:induction false} ListedTexts(ws: seq<string>)
    requires |ws| > 0 && forall i :: 0 <= i < |ws| ==> Word(ws[i])
    ensures ElementTexts(Listed(ws)) == ws
  {
    ListedSplit(ws);
    ListedStripped(ws);
    var tail := ws[1..];
    PiecesOfPrefixed(tail);
    TrimNoop(ws[0], IsSpace);
    PiecesAppend([ws[0]], Prefixed(tail));
    assert Pieces([ws[0]]) == [ws[0]];
    assert ws == [ws[0]] + tail;
  }

  /** Splitting words joined by ", " at the commas gives the padded words. */
  lemma ListedSplit(ws: seq<string>)
    requires |ws| > 0 && forall i :: 0 <= i < |ws| ==> Word(ws[i])
    ensures Split(Listed(ws), ',') == Padded(ws)
  {
    var parts := Padded(ws);
    PrefixedNoComma(ws[1..]);
    assert Word(ws[0]);
    assert forall i :: 1 <= i < |parts| ==> parts[i] == Prefixed(ws[1..])[i - 1];
    SplitUnique(parts, ',');
  }

  /** Words joined by ", " have no white space at either end. */
  lemma ListedStripped(ws: seq<string>)
    requires |ws| > 0 && forall i :: 0 <= i < |ws| ==> Word(ws[i])
    ensures Strip(Listed(ws)) == Listed(ws)
    ensures ws[0] != [] && Listed(ws) != [] && Listed(ws)[0] == ws[0][0]
  {
    var parts := Padded(ws);
    var t := Listed(ws);
    var w := ws[|ws| - 1];
    assert Word(w) && Word(ws[0]);
    PrefixedNoComma(ws[1..]);
    var last := parts[|parts| - 1];
    assert last != [] && last[|last| - 1] == w[|w| - 1] by {
      if |ws| > 1 {
        assert last == [' '] + w;
      }
    }
    JoinLast(parts, ',');
    assert t[0] == ws[0][0];
    TrimNoop(t, IsSpace);
  }

  /** Words joined by ", " become the list of the words. */
  lemma CommaSeparated(lib: Library, ws: seq<string>, schema: map<string, Value>)
    requires |ws| > 0 && !JsonListText(lib, Listed(ws))
    requires forall i :: 0 <= i < |ws| ==> Word(ws[i])
    requires "items" !in schema
    ensures StringToArray(lib, Listed(ws), schema) == Success(Strs(ws))
  {
    var t := Listed(ws);
    ListedStripped(ws);
    ListedTexts(ws);
    assert ItemsType(schema) == Ok(Null);
    StringToArrayRules(lib, t, schema);
  }

  /** A word is the single element of its list. */
  lemma SingleValue(lib: Library, a: string)
    requires Word(a) && !JsonListText(lib, a)
    ensures StringToArray(lib, a, map[]) == Success([Str(a)])
  {
    assert Listed([a]) == a;
    CommaSeparated(lib, [a], map[]);
    assert Strs([a]) == [Str(a)];
  }

  /** Text that starts with `[` but that `json.loads` rejects is split on
      commas like any other text, the bracket staying on the first word. */
  lemma UnparsedBracket(lib: Library)
    requires lib.jsonLoads("[a, b").None?
    ensures StringToArray(lib, "[a, b", map[]) == Success([Str("[a"), Str("b")])
  {
    assert Listed(["[a", "b"]) == "[a, b";
    CommaSeparated(lib, ["[a", "b"], map[]);
    assert Strs(["[a", "b"]) == [Str("[a"), Str("b")];
  }

  /** Empty text is the empty list, and converting it reports a change. */
  lemma EmptyText(lib: Library)
    ensures ConvertValue(lib, Str(""), Str("array"), map[]) == Ok(Conversion(List([]), true))
  {
    ConvertArray(lib, "", map[]);
    StringToArrayRules(lib, "", map[]);
  }

  /** Natural numbers written out. */
  function Numerals(ns: seq<nat>): (r: seq<string>)
    ensures |r| == |ns|
  {
    seq(|ns|, i requires 0 <= i < |ns| => PyInt.Show(ns[i]))
  }

  /** Each numeral is a word that `int()` reads back as its number. */
  lemma NumeralsAreWords(ns: seq<nat>)
    ensures forall i :: 0 <= i < |ns| ==> Word(Numerals(ns)[i]) && Numerals(ns)[i][0] != '['
    ensures forall i :: 0 <= i < |ns| ==> PyInt.Parse(Numerals(ns)[i]) == Some(ns[i] as int)
  {
    forall i | 0 <= i < |ns|
      ensures Word(Numerals(ns)[i]) && Numerals(ns)[i][0] != '['
      ensures PyInt.Parse(Numerals(ns)[i]) == Some(ns[i] as int)
    {
      DigitsWord(ns[i]);
      PyInt.ParseShow(ns[i]);
    }
  }

  /** Natural numbers as integer values. */
  function Ints(ns: seq<nat>): (r: seq<Value>)
    ensures |r| == |ns|
  {
    seq(|ns|, i requires 0 <= i < |ns| => Int(ns[i]))
  }

  /** Natural numbers written out and joined by ", " become the numbers
      when integer elements are declared. */
  lemma IntegerItems(lib: Library, ns: seq<nat>)
    requires |ns| > 0
    ensures StringToArray(lib, Listed(Numerals(ns)), map["items" := Dict(map["type" := Str("integer")])]) == Success(Ints(ns))
  {
    var schema := map["items" := Dict(map["type" := Str("integer")])];
    var texts := Numerals(ns);
    var t := Listed(texts);
    NumeralsAreWords(ns);
    ListedStripped(texts);
    ListedTexts(texts);
    assert !JsonListText(lib, t) by {
      assert t[..1][0] == texts[0][0];
    }
    assert ItemsType(schema) == Ok(Str("integer"));
    NumeralElements(lib, t, schema, ns);
  }

  /** When the element texts are numerals, the integer conversion yields
      their numbers. */
  lemma NumeralElements(lib: Library, value: string, schema: map<string, Value>, ns: seq<nat>)
    requires ItemsType(schema) == Ok(Str("integer"))
    requires Strip(value) != [] && !JsonListText(lib, Strip(value))
    requires ElementTexts(Strip(value)) == Numerals(ns)
    ensures StringToArray(lib, value, schema) == Success(Ints(ns))
  {
    NumeralsAreWords(ns);
    IntegerElements(lib, value, schema);
    NumeralValues(StringToArray(lib, value, schema).value, ns);
  }

  lemma NumeralValues(r: seq<Value>, ns: seq<nat>)
    requires |r| == |ns|
    requires forall i :: 0 <= i < |ns| ==> PyInt.Parse(Numerals(ns)[i]).Some? && r[i] == Int(PyInt.Parse(Numerals(ns)[i]).value)
    ensures r == Ints(ns)
  {
    NumeralsAreWords(ns);
  }

  /** The text of a natural number is a word that does not start a JSON
      list. */
  lemma DigitsWord(n: nat)
    ensures Word(PyInt.Show(n)) && PyInt.Show(n)[0] != '['
  {
    var s := PyInt.Show(n);
    assert PyInt.IsDigit(s[0]) && PyInt.IsDigit(s[|s| - 1]);
  }

  /** A text whose stripped form is a JSON list is converted to the list
      `json.loads` returns. */
  lemma JsonList(lib: Library, v: string, items: seq<Value>, schema: map<string, Value>)
    requires StartsWith(Strip(v), "[") && lib.jsonLoads(Strip(v)) == Some(List(items))
    ensures ConvertValue(lib, Str(v), Str("array"), schema) == Ok(Conversion(List(items), true))
  {
    StringToArrayRules(lib, v, schema);
    ConvertArray(lib, v, schema);
  }

  /** Words that `float()` accepts, joined by ", ", become their numbers
      when number elements are declared. */
  lemma NumberItems(lib: Library, ws: seq<string>, fs: seq<real>)
    requires |ws| > 0 && !JsonListText(lib, Listed(ws))
    requires forall i :: 0 <= i < |ws| ==> Word(ws[i])
    requires |fs| == |ws| && forall i :: 0 <= i < |ws| ==> lib.parseFloat(ws[i]) == Some(fs[i])
    ensures StringToArray(lib, Listed(ws), map["items" := Dict(map["type" := Str("number")])])
         == Success(seq(|fs|, i requires 0 <= i < |fs| => Real(fs[i])))
  {
    var schema := map["items" := Dict(map["type" := Str("number")])];
    var t := Listed(ws);
    ListedStripped(ws);
    ListedTexts(ws);
    assert ItemsType(schema) == Ok(Str("number"));
    NumberElements(lib, t, schema);
    FloatValues(lib, StringToArray(lib, t, schema).value, ws, fs);
  }

  lemma FloatValues(lib: Library, r: seq<Value>, ws: seq<string>, fs: seq<real>)
    requires |fs| == |ws| && forall i :: 0 <= i < |ws| ==> lib.parseFloat(ws[i]) == Some(fs[i])
    requires |r| == |ws| && forall i :: 0 <= i < |ws| ==> r[i] == Real(lib.parseFloat(ws[i]).value)
    ensures r == seq(|fs|, i requires 0 <= i < |fs| => Real(fs[i]))
  {
  }

  /** A text that is not an integer stays as it is. */
  lemma InvalidInteger(lib: Library)
    ensures ConvertValue(lib, Str("abc"), Str("integer"), map[]) == Ok(Conversion(Str("abc"), false))
  {
    PyInt.ParseRejectsChar("abc", 'a');
  }

  /** Case variants of the truthy words read as true. */
  lemma TruthyWords()
    ensures StringToBoolean("TRUE") && StringToBoolean("Yes") && StringToBoolean("On") && StringToBoolean("1")
  {
    StringToBooleanSpec("TRUE");
    assert CaseVariant("TRUE", "true");
    StringToBooleanSpec("Yes");
    assert CaseVariant("Yes", "yes");
    StringToBooleanSpec("On");
    assert CaseVariant("On", "on");
    StringToBooleanSpec("1");
    assert CaseVariant("1", "1");
  }

  /** Case variants of the falsy words, and the empty text, read as false. */
  lemma FalsyExamples()
    ensures !StringToBoolean("False") && !StringToBoolean("OFF") && !StringToBoolean("0") && !StringToBoolean("")
  {
    FalsyWords("False", "false");
    FalsyWords("OFF", "off");
    FalsyWords("0", "0");
    FalsyWords("", "");
  }

  /** A property declared with nothing but its type. */
  function Typed(name: string): Value {
    Dict(map["type" := Str(name)])
  }

  /** The declared properties of the end-to-end case. */
  function WorkflowProps(): map<string, Value> {
    map[
      "data_type" := Typed("array"),
      "max_results" := Typed("integer"),
      "threshold" := Typed("number"),
      "include_forecast" := Typed("boolean"),
      "filters" := Typed("object")
    ]
  }

  /** The arguments of the end-to-end case, all of them strings: a list
      written out, the text of a number, a decimal text, a boolean word and
      a JSON object text. */
  function WorkflowArgs(ws: seq<string>, n: nat, x: string, b: string, j: string): map<string, Value>
    requires |ws| > 0
  {
    map[
      "data_type" := Str(Listed(ws)),
      "max_results" := Str(PyInt.Show(n)),
      "threshold" := Str(x),
      "include_forecast" := Str(b),
      "filters" := Str(j)
    ]
  }

  /** A string whose conversion reports a change is overwritten with the
      converted value. */
  lemma RewriteTyped(lib: Library, name: string, s: string, v: Value)
    requires ConvertValue(lib, Str(s), Str(name), map["type" := Str(name)]) == Ok(Conversion(v, true))
    ensures Rewrite(lib, Typed(name), Str(s)) == v
  {
  }

  /** Every argument of the end-to-end case is converted to its declared
      type: the list to its words, the number text to the number, and the
      others to what `float()`, the boolean lexer and `json.loads` make of
      them. */
  lemma Workflow(lib: Library, ws: seq<string>, n: nat, x: string, b: string, j: string, f: real, o: Value)
    requires |ws| > 0 && !JsonListText(lib, Listed(ws))
    requires forall i :: 0 <= i < |ws| ==> Word(ws[i])
    requires lib.parseFloat(x) == Some(f) && lib.jsonLoads(j) == Some(o)
    ensures var c := Coerced(lib, WorkflowProps(), WorkflowArgs(ws, n, x, b, j), WorkflowProps().Keys);
      && c.Keys == WorkflowProps().Keys
      && c["data_type"] == List(Strs(ws))
      && c["max_results"] == Int(n)
      && c["threshold"] == Real(f)
      && c["include_forecast"] == Bool(StringToBoolean(b))
      && c["filters"] == o
  {
    ListEntry(lib, ws);
    NumberEntries(lib, n, x, f);
    TextEntries(lib, b, j, o);
    WorkflowLists(lib, ws, n, x, b, j);
    WorkflowTexts(lib, ws, n, x, b, j);
  }

  /** The first three arguments of the end-to-end case hold their
      conversions after the pass. */
  lemma WorkflowLists(lib: Library, ws: seq<string>, n: nat, x: string, b: string, j: string)
    requires |ws| > 0
    ensures var c, props := Coerced(lib, WorkflowProps(), WorkflowArgs(ws, n, x, b, j), WorkflowProps().Keys), WorkflowProps();
      && c.Keys == props.Keys
      && c["data_type"] == Rewrite(lib, Typed("array"), Str(Listed(ws)))
      && c["max_results"] == Rewrite(lib, Typed("integer"), Str(PyInt.Show(n)))
      && c["threshold"] == Rewrite(lib, Typed("number"), Str(x))
  {
    var props, args := WorkflowProps(), WorkflowArgs(ws, n, x, b, j);
    CoercedAt(lib, props, args, props.Keys, "data_type");
    CoercedAt(lib, props, args, props.Keys, "max_results");
    CoercedAt(lib, props, args, props.Keys, "threshold");
  }

  /** The last two arguments of the end-to-end case hold their conversions
      after the pass. */
  lemma WorkflowTexts(lib: Library, ws: seq<string>, n: nat, x: string, b: string, j: string)
    requires |ws| > 0
    ensures var c := Coerced(lib, WorkflowProps(), WorkflowArgs(ws, n, x, b, j), WorkflowProps().Keys);
      && c["include_forecast"] == Rewrite(lib, Typed("boolean"), Str(b))
      && c["filters"] == Rewrite(lib, Typed("object"), Str(j))
  {
    var props, args := WorkflowProps(), WorkflowArgs(ws, n, x, b, j);
    CoercedAt(lib, props, args, props.Keys, "include_forecast");
    CoercedAt(lib, props, args, props.Keys, "filters");
  }

  /** The boolean word is overwritten with what the lexer reads, the object
      text with what `json.loads` returns. */
  lemma TextEntries(lib: Library, b: string, j: string, o: Value)
    requires lib.jsonLoads(j) == Some(o)
    ensures Rewrite(lib, Typed("boolean"), Str(b)) == Bool(StringToBoolean(b))
    ensures Rewrite(lib, Typed("object"), Str(j)) == o
  {
    RewriteTyped(lib, "boolean", b, Bool(StringToBoolean(b)));
    var schema := map["type" := Str("object")];
    assert TypeMatches(Str(j), Str("object")) == Ok(false);
    assert Dispatch(lib, j, ObjectType, schema) == Success(o);
    RewriteTyped(lib, "object", j, o);
  }

  /** A list written out is overwritten with its words. */
  lemma ListEntry(lib: Library, ws: seq<string>)
    requires |ws| > 0 && !JsonListText(lib, Listed(ws))
    requires forall i :: 0 <= i < |ws| ==> Word(ws[i])
    ensures Rewrite(lib, Typed("array"), Str(Listed(ws))) == List(Strs(ws))
  {
    var schema := map["type" := Str("array")];
    CommaSeparated(lib, ws, schema);
    ConvertArray(lib, Listed(ws), schema);
    RewriteTyped(lib, "array", Listed(ws), List(Strs(ws)));
  }

  /** The number texts are overwritten with their numbers. */
  lemma NumberEntries(lib: Library, n: nat, x: string, f: real)
    requires lib.parseFloat(x) == Some(f)
    ensures Rewrite(lib, Typed("integer"), Str(PyInt.Show(n))) == Int(n)
    ensures Rewrite(lib, Typed("number"), Str(x)) == Real(f)
  {
    IntegerRoundTrip(lib, n, map["type" := Str("integer")]);
    RewriteTyped(lib, "integer", PyInt.Show(n), Int(n));
    RewriteTyped(lib, "number", x, Real(f));
  }
}
