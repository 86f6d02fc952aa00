/** Runtime values of the tool-calling layer, the exceptions that can leave the
    hook, and the library parsers the hook calls but whose internals are not
    part of this model. */
module Values {

  datatype Option<+T> = None | Some(value: T)

  /** A Python value built from JSON data: what an argument map or an input
      schema can hold.  `Real` stands for a Python `float`. */
  datatype Value =
    | Null
    | Bool(b: bool)
    | Int(i: int)
    | Real(x: real)
    | Str(s: string)
    | List(items: seq<Value>)
    | Dict(fields: map<string, Value>)

  /** The exceptions the hook does not catch. */
  datatype PyException =
    | TypeError       // a list or dict used as a dictionary key
    | AttributeError  // `.get` called on something that is not a dict

  /** Either a value or an exception that propagates out of the hook. */
  datatype Result<+T> = Ok(value: T) | Err(error: PyException)

  /** A conversion attempt: a value, a `ValueError` (or `json.JSONDecodeError`)
      that the converter catches, or an exception it lets through. */
  datatype Attempt<+T> = Success(value: T) | ValueError | Escape(error: PyException)

  /** `json.loads` (RFC 8259) and `float()`, as partial parsers: `None` is the
      `ValueError` they raise on malformed text. */
  datatype Library = Library(jsonLoads: string -> Option<Value>, parseFloat: string -> Option<real>)
}
