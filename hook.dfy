/** `ToolParameterCoercionHook._coerce_parameters`: find the declared
    properties of the selected tool, then walk them and overwrite, in the
    call's argument dictionary, every argument whose conversion reports a
    change. */
module Hook {
  import opened Values
  import opened Coercion

  /** The declared properties of a tool, from its `tool_spec`: the
      `inputSchema` entry, unwrapped once when it holds a `"json"` key, and
      that schema's `properties`.  `None` means the hook skips the call:
      `tool_spec` or the schema is not a dict (the `"json"` test, the
      indexing under `"json"` or `.get` raises inside the hook's `try`, which
      only logs), the properties are not a dict (`len`, indexing or `.keys()`
      in the logging raises there), or the properties are missing or
      empty. */
  function ResolveProperties(toolSpec: Value): (r: Option<map<string, Value>>)
    ensures r.Some? ==> |r.value| > 0
  {
    if !toolSpec.Dict? then None
    else
      var raw := if "inputSchema" in toolSpec.fields then toolSpec.fields["inputSchema"] else Dict(map[]);
      if !raw.Dict? then None
      else
        var schema := if "json" in raw.fields then raw.fields["json"] else raw;
        if !schema.Dict? then None
        else
          var props := if "properties" in schema.fields then schema.fields["properties"] else Dict(map[]);
          if props.Dict? && props.fields != map[] then Some(props.fields) else None
  }

  /** `toolSpec` is a dict whose `inputSchema` entry, when present, is a dict;
      the schema (that entry, or its `"json"` entry when it has one) is a
      dict; and the schema's `properties` entry is the dict `props`. */
  ghost predicate DeclaresProperties(toolSpec: Value, props: map<string, Value>) {
    && toolSpec.Dict?
    && ("inputSchema" in toolSpec.fields ==> toolSpec.fields["inputSchema"].Dict?)
    && exists schema: map<string, Value> ::
         && SchemaOf(toolSpec.fields, schema)
         && "properties" in schema && schema["properties"] == Dict(props)
  }

  /** `schema` is the input schema of a tool spec with entries `spec`: the
      `inputSchema` entry itself, or its `"json"` entry when it has one. */
  ghost predicate SchemaOf(spec: map<string, Value>, schema: map<string, Value>) {
    if "inputSchema" !in spec then schema == map[]
    else
      var raw := spec["inputSchema"];
      raw.Dict? &&
      if "json" in raw.fields then raw.fields["json"] == Dict(schema) else raw.fields == schema
  }

  /** Properties resolve exactly for a well-formed tool spec declaring a
      non-empty `properties` dict, and then they are that dict: every
      malformed shape, and missing or empty properties, mean skipping. */
  lemma ResolveShape(toolSpec: Value)
    ensures var r := ResolveProperties(toolSpec);
      r.Some? ==> DeclaresProperties(toolSpec, r.value) && r.value != map[]
    ensures forall props :: DeclaresProperties(toolSpec, props) && props != map[] ==>
      ResolveProperties(toolSpec) == Some(props)
  {
    var r := ResolveProperties(toolSpec);
    if r.Some? {
      var raw := if "inputSchema" in toolSpec.fields then toolSpec.fields["inputSchema"] else Dict(map[]);
      var schema := if "json" in raw.fields then raw.fields["json"] else raw;
      assert SchemaOf(toolSpec.fields, schema.fields);
    }
    forall props | DeclaresProperties(toolSpec, props) && props != map[]
      ensures ResolveProperties(toolSpec) == Some(props)
    {
      var schema: map<string, Value> :| SchemaOf(toolSpec.fields, schema)
        && "properties" in schema && schema["properties"] == Dict(props);
    }
  }

  /** A schema that is wrapped under `"json"` resolves to the same
      properties as the schema itself. */
  lemma UnwrapJson(schema: map<string, Value>)
    requires "json" !in schema
    ensures ResolveProperties(Dict(map["inputSchema" := Dict(map["json" := Dict(schema)])]))
         == ResolveProperties(Dict(map["inputSchema" := Dict(schema)]))
  {
  }

  /** A plain schema with a non-empty `properties` dict resolves to it. */
  lemma ResolvePlain(props: map<string, Value>)
    requires props != map[]
    ensures ResolveProperties(Dict(map["inputSchema" := Dict(map["properties" := Dict(props)])])) == Some(props)
  {
  }

  /** The declared properties the hook walks for a call, or `None` when it
      returns early: no tool was selected, the call's input is not a dict,
      or no properties resolve. */
  function Declared(tool: Option<Value>, input: Value): Option<map<string, Value>> {
    if tool.None? || !input.Dict? then None else ResolveProperties(tool.value)
  }

  /** `param_schema.get("type")`, with `Null` for a missing entry. */
  function DeclaredType(paramSchema: map<string, Value>): Value {
    if "type" in paramSchema then paramSchema["type"] else Null
  }

  /** One iteration of the loop for a parameter present in the input:
      `Ok(Some(v))` when it overwrites the argument with `v`, `Ok(None)` when
      it leaves it, `Err` for the exception that escapes the hook.  Only a
      string argument of a parameter that declares a type is ever rewritten. */
  function CoerceEntry(lib: Library, paramSchema: Value, value: Value): (r: Result<Option<Value>>)
    ensures r.Ok? && r.value.Some? ==> value.Str? && paramSchema.Dict? && DeclaredType(paramSchema.fields) != Null
    ensures r.Ok? && r.value.Some? && DeclaredType(paramSchema.fields) != Str("object") ==>
      TypeMatches(r.value.value, DeclaredType(paramSchema.fields)) == Ok(true)
    ensures r.Err? ==>
      || !paramSchema.Dict?
      || DeclaredType(paramSchema.fields).List?
      || DeclaredType(paramSchema.fields).Dict?
      || DeclaredType(paramSchema.fields) == Str("array")
  {
    if !paramSchema.Dict? then Err(AttributeError)
    else
      var expected := DeclaredType(paramSchema.fields);
      if expected == Null then Ok(None)
      else
        match ConvertValue(lib, value, expected, paramSchema.fields)
        case Err(e) => Err(e)
        case Ok(c) => if c.changed then Ok(Some(c.value)) else Ok(None)
  }

  /** The argument under a declared name after its iteration. */
  function Rewrite(lib: Library, paramSchema: Value, value: Value): Value {
    match CoerceEntry(lib, paramSchema, value)
    case Ok(Some(v)) => v
    case _ => value
  }

  /** Processing parameter `k` raises. */
  predicate Raises(lib: Library, props: map<string, Value>, args: map<string, Value>, k: string) {
    k in props && k in args && CoerceEntry(lib, props[k], args[k]).Err?
  }

  /** Processing parameter `k` overwrites its argument. */
  predicate Rewrites(lib: Library, props: map<string, Value>, args: map<string, Value>, k: string) {
    k in props && k in args && CoerceEntry(lib, props[k], args[k]).Ok? && CoerceEntry(lib, props[k], args[k]).value.Some?
  }

  /** The arguments after the declared names in `done` have been processed.
      No key is added or removed, arguments not in `done` or not declared
      keep their value, and an argument that changed is a string rewritten
      under a declared name with a declared type. */
  function Coerced(lib: Library, props: map<string, Value>, args: map<string, Value>, done: set<string>): (r: map<string, Value>)
    ensures r.Keys == args.Keys
  {
    map k | k in args :: if k in done && k in props then Rewrite(lib, props[k], args[k]) else args[k]
  }

  /** Arguments not in `done` or not declared keep their value, and an
      argument that changed is a string rewritten under a declared name
      with a declared type. */
  lemma CoercedFrame(lib: Library, props: map<string, Value>, args: map<string, Value>, done: set<string>)
    ensures var r := Coerced(lib, props, args, done);
      && (forall k :: k in args && (k !in done || k !in props) ==> r[k] == args[k])
      && (forall k :: k in args && r[k] != args[k] ==>
            k in done && Rewrites(lib, props, args, k) && args[k].Str? && DeclaredType(props[k].fields) != Null)
  {
  }

  /** A processed declared argument holds its rewrite. */
  lemma CoercedAt(lib: Library, props: map<string, Value>, args: map<string, Value>, done: set<string>, k: string)
    requires k in args && k in props && k in done
    ensures Coerced(lib, props, args, done)[k] == Rewrite(lib, props[k], args[k])
  {
  }

  /** What the hook reports: it skipped the call, it walked every declared
      property (and whether it changed something), or an exception escaped. */
  datatype HookOutcome = Skipped | Finished(modified: bool) | Raised(error: PyException)

  /** The tool call the hook sees: its `input` entry is the argument
      dictionary, updated in place. */
  class ToolUse {
    var input: Value

    constructor (input: Value)
      ensures this.input == input
    {
      this.input := input;
    }
  }

  /** `_coerce_parameters(event)`, with `tool` the `tool_spec` of the
      selected tool (`None` when no tool was selected).  Without declared
      properties nothing happens; otherwise the declared properties are
      walked as `Walk` states. */
  method CoerceParameters(lib: Library, tool: Option<Value>, call: ToolUse) returns (outcome: HookOutcome)
    modifies call
    ensures Declared(tool, old(call.input)).None? ==> outcome == Skipped && call.input == old(call.input)
    ensures Declared(tool, old(call.input)).Some? ==>
      Walked(lib, Declared(tool, old(call.input)).value, old(call.input).fields, outcome, call.input)
  {
    if tool.None? || !call.input.Dict? {
      return Skipped;
    }
    var resolved := ResolveProperties(tool.value);
    if resolved.None? {
      return Skipped;
    }
    outcome := Walk(lib, resolved.value, call);
  }

  /** The outcome of walking the declared properties `props` over the
      arguments `args`, leaving `input` behind.  Every declared property
      present in the arguments is processed once: on completion the input is
      `Coerced(...)` of the old one; when an exception escapes, it names a
      parameter that raises and the properties processed before it have
      been applied. */
  ghost predicate Walked(lib: Library, props: map<string, Value>, args: map<string, Value>, outcome: HookOutcome, input: Value) {
    && outcome != Skipped
    && (outcome.Raised? <==> exists k :: Raises(lib, props, args, k))
    && (outcome.Finished? ==>
          && input == Dict(Coerced(lib, props, args, props.Keys))
          && (outcome.modified <==> exists k :: Rewrites(lib, props, args, k)))
    && (outcome.Raised? ==>
          && (exists k :: Raises(lib, props, args, k) && CoerceEntry(lib, props[k], args[k]) == Err(outcome.error))
          && exists done :: done <= props.Keys && input == Dict(Coerced(lib, props, args, done)))
  }

  /** The loop state after the declared names in `done` were processed
      without an exception: the input holds `Coerced(...)` and `modified`
      says whether one of them was rewritten. */
  ghost predicate Processed(lib: Library, props: map<string, Value>, args: map<string, Value>, done: set<string>, input: Value, modified: bool) {
    && done <= props.Keys
    && input == Dict(Coerced(lib, props, args, done))
    && (forall k :: k in done ==> !Raises(lib, props, args, k))
    && (modified <==> exists k :: k in done && Rewrites(lib, props, args, k))
  }

  /** The `for param_name, param_schema in properties.items()` loop. */
  method Walk(lib: Library, props: map<string, Value>, call: ToolUse) returns (outcome: HookOutcome)
    requires call.input.Dict?
    modifies call
    ensures Walked(lib, props, old(call.input).fields, outcome, call.input)
  {
    ghost var args := call.input.fields;
    var pending := props.Keys;
    ghost var done: set<string> := {};
    var modified := false;
    while pending != {}
      invariant pending <= props.Keys && done == props.Keys - pending
      invariant Processed(lib, props, args, done, call.input, modified)
      decreases pending
    {
      var name :| name in pending;
      var current := call.input.fields;
      CoercedStep(lib, props, args, done, name);
      if name in current {
        var step := CoerceEntry(lib, props[name], current[name]);
        if step.Err? {
          WalkRaised(lib, props, args, done, name, call.input, modified);
          return Raised(step.error);
        }
        ProcessedStep(lib, props, args, done, name, modified);
        if step.value.Some? {
          call.input := Dict(current[name := step.value.value]);
          modified := true;
        }
      } else {
        ProcessedStep(lib, props, args, done, name, modified);
      }
      pending := pending - {name};
      done := done + {name};
    }
    WalkFinished(lib, props, args, call.input, modified);
    return Finished(modified);
  }

  /** The state after one more declared name that does not raise. */
  lemma ProcessedStep(lib: Library, props: map<string, Value>, args: map<string, Value>, done: set<string>, name: string, modified: bool)
    requires Processed(lib, props, args, done, Dict(Coerced(lib, props, args, done)), modified)
    requires name in props && name !in done && !Raises(lib, props, args, name)
    ensures Processed(lib, props, args, done + {name}, Dict(Coerced(lib, props, args, done + {name})), modified || Rewrites(lib, props, args, name))
  {
  }

  lemma WalkRaised(lib: Library, props: map<string, Value>, args: map<string, Value>, done: set<string>, name: string, input: Value, modified: bool)
    requires Processed(lib, props, args, done, input, modified)
    requires name in props && name !in done && name in args
    requires CoerceEntry(lib, props[name], args[name]).Err?
    ensures Walked(lib, props, args, Raised(CoerceEntry(lib, props[name], args[name]).error), input)
  {
    assert Raises(lib, props, args, name);
  }

  lemma WalkFinished(lib: Library, props: map<string, Value>, args: map<string, Value>, input: Value, modified: bool)
    requires Processed(lib, props, args, props.Keys, input, modified)
    ensures Walked(lib, props, args, Finished(modified), input)
  {
  }

  /** Processing one more declared name updates only its own argument. */
  lemma CoercedStep(lib: Library, props: map<string, Value>, args: map<string, Value>, done: set<string>, name: string)
    requires name in props && name !in done
    ensures var before := Coerced(lib, props, args, done);
      Coerced(lib, props, args, done + {name}) ==
        if name in args then before[name := Rewrite(lib, props[name], args[name])] else before
  {
  }

  /** Every argument the pass rewrote under a declared `object` type became
      a dict. */
  ghost predicate ObjectsBecameDicts(lib: Library, props: map<string, Value>, args: map<string, Value>) {
    forall k :: Rewrites(lib, props, args, k) && DeclaredType(props[k].fields) == Str("object") ==>
      Rewrite(lib, props[k], args[k]).Dict?
  }

  /** Running the hook on its own output changes nothing, provided the
      first run raised nothing and every `object` argument it parsed became
      a dict. */
  lemma {:induction false} PassIdempotent(lib: Library, props: map<string, Value>, args: map<string, Value>)
    requires forall k :: !Raises(lib, props, args, k)
    requires ObjectsBecameDicts(lib, props, args)
    ensures var once := Coerced(lib, props, args, props.Keys);
      && (forall k :: !Raises(lib, props, once, k))
      && Coerced(lib, props, once, props.Keys) == once
  {
    var once := Coerced(lib, props, args, props.Keys);
    forall k | k in props && k in args
      ensures CoerceEntry(lib, props[k], once[k]).Ok? && CoerceEntry(lib, props[k], once[k]).value.None?
    {
      assert !Raises(lib, props, args, k);
      if Rewrites(lib, props, args, k) {
        var expected := DeclaredType(props[k].fields);
        assert TypeMatches(once[k], expected) == Ok(true);
      }
    }
  }
}
