/** Values that cross the model boundary: the JSON records the language model
    returns, and the JSON library (parser and serialiser) treated as an oracle. */
module JsonValue {

  datatype Option<+T> = None | Some(value: T)

  datatype Result<+R, +E> = Success(value: R) | Failure(error: E)

  /** A decoded JSON value, as the JSON library hands it to the program.
      `Null` is also the program's own "no value yet" (Python's None). */
  datatype Json =
    | Null
    | Bool(b: bool)
    | Num(n: real)
    | Str(s: string)
    | Arr(items: seq<Json>)
    | Obj(fields: map<string, Json>)

  /** The JSON library: `parse` is the strict whole-text parser (None when it
      raises), `serialize` the one-line serialiser. Both are left uninterpreted. */
  datatype Codec = Codec(parse: string -> Option<Json>, serialize: Json -> string)

  /** What every conforming JSON parser guarantees: a text that begins with `{`
      can only parse to an object. */
  ghost predicate SaneParser(parse: string -> Option<Json>)
  {
    forall s: string ::
      |s| > 0 && s[0] == '{' && parse(s).Some? ==> parse(s).value.Obj?
  }

  /** Python truthiness of a decoded value: None, False, 0, "", [] and {} are false. */
  predicate Falsy(v: Json)
  {
    match v
    case Null => true
    case Bool(b) => !b
    case Num(n) => n == 0.0
    case Str(s) => s == ""
    case Arr(items) => items == []
    case Obj(fields) => fields == map[]
  }

  /** `v or {}`: the value itself when it is truthy, the empty object otherwise. */
  function OrEmpty(v: Json): (r: Json)
    ensures r.Obj? || r == v
    ensures !Falsy(r) ==> r == v
    ensures Falsy(v) <==> r == Obj(map[])
  {
    if Falsy(v) then Obj(map[]) else v
  }
}
