/**
 * The JSON-like values the assembler builds and the read side maps: Python's `None`,
 * booleans, integers, floats, strings, lists and string-keyed dicts.
 */
module Documents {
  import opened Wrappers

  datatype Value =
    | Null
    | Bool(b: bool)
    | Int(i: int)
    | Float(f: real)
    | Str(s: string)
    | List(items: seq<Value>)
    | Object(fields: map<string, Value>)

  /** A dict with string keys, such as a MongoDB document. */
  type Document = map<string, Value>

  function OptionalStr(o: Option<string>): Value
  {
    if o.Some? then Str(o.value) else Null
  }

  function OptionalFloat(o: Option<real>): Value
  {
    if o.Some? then Float(o.value) else Null
  }

  function OptionalBool(o: Option<bool>): Value
  {
    if o.Some? then Bool(o.value) else Null
  }

  function OptionalObject(o: Option<Document>): Value
  {
    if o.Some? then Object(o.value) else Null
  }

  /** A list of strings. */
  function StrList(xs: seq<string>): Value
  {
    List(seq(|xs|, i requires 0 <= i < |xs| => Str(xs[i])))
  }

  /** `[f(x) for x in xs]`. */
  function ListOf<T>(xs: seq<T>, f: T -> Value): Value
  {
    List(seq(|xs|, i requires 0 <= i < |xs| => f(xs[i])))
  }
}
